/** Build metrics (cpp/scripts/sort_ninja_log.py): entries of a build log are packed greedily into
    thread rows, and the chart rewrites the entries in place, row by row. */
module NinjaThreads {
  import opened Sequences

  /** An entry of the log, or what the chart leaves in its place. */
  datatype Slot =
    | Raw(start: int, end: int, size: int)
    | Done(buildTime: int, color: Color, size: int)

  datatype Color = RED | YELLOW | GREEN | WHITE

  type Entries = map<string, Slot>

  predicate AllRaw(entries: Entries) {
    forall name :: name in entries ==> entries[name].Raw?
  }

  // ----- depth -----

  /** Building at time `x`, with entries taken as the half-open intervals (start, end]. */
  predicate Covers(s: Slot, x: int) {
    s.Raw? && s.start < x <= s.end
  }

  function Busy(entries: Entries, x: int): set<string> {
    set name | name in entries && Covers(entries[name], x)
  }

  predicate Proper(entries: Entries) {
    forall name :: name in entries && entries[name].Raw? ==> entries[name].start < entries[name].end
  }

  /** A valid assignment gives every entry one of `m` threads and never two entries at one time to the
      same thread. */
  ghost predicate Valid(assignment: map<string, nat>, m: nat, entries: Entries) {
    && (forall name :: name in entries ==> name in assignment && assignment[name] < m)
    && forall a, b, x :: a in entries && b in entries && a != b && assignment[a] == assignment[b] ==>
         !(Covers(entries[a], x) && Covers(entries[b], x))
  }

  /** The greatest number of entries that build at one time. */
  ghost predicate IsDepth(depth: nat, entries: Entries) {
    (forall x :: |Busy(entries, x)| <= depth) && exists x :: |Busy(entries, x)| == depth
  }

  /** No valid assignment has fewer threads than entries that build at one time. */
  lemma DepthIsNeeded(assignment: map<string, nat>, m: nat, entries: Entries, x: int)
    requires Valid(assignment, m, entries)
    ensures |Busy(entries, x)| <= m
  {
    Pigeonhole(Busy(entries, x), assignment, m);
  }

  // ----- the assignment -----

  function EndsLater(entries: Entries): (string, string) -> bool {
    (a, b) => End(entries, a) >= End(entries, b)
  }

  function StartsEarlier(entries: Entries): (string, string) -> bool {
    (a, b) => Start(entries, a) <= Start(entries, b)
  }

  function End(entries: Entries, name: string): int {
    if name in entries && entries[name].Raw? then entries[name].end else 0
  }

  function Start(entries: Entries, name: string): int {
    if name in entries && entries[name].Raw? then entries[name].start else 0
  }

  /** The rows hold exactly the listed names, each once. */
  ghost predicate ExactPartition(rows: seq<seq<string>>, names: seq<string>) {
    && (forall name :: name in names <==> exists t :: 0 <= t < |rows| && name in rows[t])
    && (forall t :: 0 <= t < |rows| ==> Distinct(rows[t]))
    && (forall t, u, name :: 0 <= t < u < |rows| && name in rows[t] ==> name !in rows[u])
  }

  function RowOf(rows: seq<seq<string>>, name: string): (t: nat)
    requires exists u :: 0 <= u < |rows| && name in rows[u]
    ensures t < |rows| && name in rows[t]
  {
    if name in rows[0] then 0 else 1 + RowOf(rows[1..], name)
  }

  /** Within a row, an entry ends before any entry listed earlier starts. */
  ghost predicate RowsDescend(rows: seq<seq<string>>, entries: Entries) {
    forall t, i, j :: 0 <= t < |rows| && 0 <= i < j < |rows[t]| ==>
        End(entries, rows[t][j]) <= Start(entries, rows[t][i])
  }

  /** The start time of each thread is that of the last entry of its row. */
  ghost predicate StartsOf(threads: seq<int>, rows: seq<seq<string>>, entries: Entries) {
    && |threads| == |rows|
    && forall t :: 0 <= t < |rows| ==> rows[t] != [] && threads[t] == Start(entries, rows[t][|rows[t]| - 1])
  }

  /** The entries of `done` that start before `end`. */
  function Early(done: seq<string>, end: int, entries: Entries): set<string> {
    set name | name in done && Start(entries, name) < end
  }

  /** The entries listed before the k-th that start before it ends. */
  function Before(names: seq<string>, k: nat, entries: Entries): set<string>
    requires k < |names|
  {
    Early(names[..k], End(entries, names[k]), entries)
  }

  /** `count` is the greatest number of entries that are listed before one entry and start before it
      ends, that entry included. */
  ghost predicate Counted(count: nat, names: seq<string>, entries: Entries) {
    && (forall k :: 0 <= k < |names| ==> |Before(names, k, entries)| < count)
    && (count > 0 ==> exists k :: 0 <= k < |names| && |Before(names, k, entries)| + 1 == count)
  }

  /** The state of the greedy loop after the names of `done`. */
  ghost predicate Packed(threads: seq<int>, rows: seq<seq<string>>, done: seq<string>, entries: Entries) {
    && ExactPartition(rows, done)
    && RowsDescend(rows, entries)
    && StartsOf(threads, rows, entries)
    && Counted(|rows|, done, entries)
  }

  /** What the loop has still to place ends no later than anything placed. */
  ghost predicate EndsBefore(name: string, done: seq<string>, entries: Entries) {
    forall d :: d in done ==> End(entries, name) <= End(entries, d)
  }

  lemma OneEarlyPerRow(rows: seq<seq<string>>, done: seq<string>, entries: Entries, name: string, t: nat,
                       u: nat, a: string, b: string)
    requires ExactPartition(rows, done + [name]) && RowsDescend(rows, entries) && EndsBefore(name, done, entries)
    requires t < |rows| && rows[t] != [] && rows[t][|rows[t]| - 1] == name
    requires u < |rows| && a in rows[u] && b in rows[u]
    requires a == name || (a in done && Start(entries, a) < End(entries, name))
    requires b == name || (b in done && Start(entries, b) < End(entries, name))
    ensures a == b
  {
    var row := rows[u];
    var i :| 0 <= i < |row| && row[i] == a;
    var j :| 0 <= j < |row| && row[j] == b;
    if a == name || b == name {
      assert name in rows[t];
      assert u == t;
      assert forall m :: 0 <= m < |row| - 1 ==> row[m] != row[|row| - 1];
    }
    assert i < j ==> End(entries, b) <= Start(entries, a);
    assert j < i ==> End(entries, a) <= Start(entries, b);
  }

  /** The entries that start before the new one ends are in rows of their own, other than its row. */
  lemma EarlyApart(rows: seq<seq<string>>, done: seq<string>, entries: Entries, name: string, t: nat)
    requires ExactPartition(rows, done + [name]) && RowsDescend(rows, entries)
    requires name !in done && EndsBefore(name, done, entries)
    requires t < |rows| && rows[t] != [] && rows[t][|rows[t]| - 1] == name
    ensures |Early(done, End(entries, name), entries)| < |rows|
  {
    var early := Early(done, End(entries, name), entries);
    var all := early + {name};
    forall n | n in all ensures exists u :: 0 <= u < |rows| && n in rows[u] {
      assert n in done + [name];
    }
    var hole := map n | n in all :: RowOf(rows, n);
    forall a, b | a in all && b in all && hole[a] == hole[b] ensures a == b {
      OneEarlyPerRow(rows, done, entries, name, t, hole[a], a, b);
    }
    Pigeonhole(all, hole, |rows|);
  }

  /** One more name with a count of its own. */
  lemma CountNext(count: nat, done: seq<string>, entries: Entries, name: string, next: nat)
    requires Counted(count, done, entries)
    requires |Early(done, End(entries, name), entries)| < next
    requires next == count > 0 || next == count + 1 == |Early(done, End(entries, name), entries)| + 1
    ensures Counted(next, done + [name], entries)
  {
    var names := done + [name];
    forall k | 0 <= k < |done| ensures Before(names, k, entries) == Before(done, k, entries) {
      assert names[..k] == done[..k];
    }
    assert names[..|done|] == done;
    assert Before(names, |done|, entries) == Early(done, End(entries, name), entries);
    if next == count {
      var k :| 0 <= k < |done| && |Before(done, k, entries)| + 1 == count;
      assert |Before(names, k, entries)| + 1 == next;
    }
  }

  /** An entry that never builds is listed after a largest set of entries that build at one time, all
      of which build when it ends. */
  ghost predicate CostsARow(names: seq<string>, depth: nat, entries: Entries) {
    exists k :: 0 <= k < |names| && Start(entries, names[k]) >= End(entries, names[k])
             && |Before(names, k, entries)| == depth
  }

  lemma ReuseRows(threads: seq<int>, rows: seq<seq<string>>, done: seq<string>, entries: Entries, name: string, t: nat)
    requires Packed(threads, rows, done, entries) && t < |threads| && name !in done
    ensures ExactPartition(rows[t := rows[t] + [name]], done + [name])
  {
    var rows' := rows[t := rows[t] + [name]];
    forall n ensures n in done + [name] <==> exists u :: 0 <= u < |rows'| && n in rows'[u] {
      if n in done {
        var u :| 0 <= u < |rows| && n in rows[u];
        assert n in rows'[u];
      }
      if n == name {
        assert n in rows'[t];
      }
    }
  }

  lemma ReuseDescends(threads: seq<int>, rows: seq<seq<string>>, done: seq<string>, entries: Entries,
                      name: string, t: nat)
    requires Packed(threads, rows, done, entries) && t < |threads|
    requires EndsBefore(name, done, entries) && threads[t] >= End(entries, name)
    ensures RowsDescend(rows[t := rows[t] + [name]], entries)
  {
    var row := rows[t];
    forall i | 0 <= i < |row| ensures End(entries, name) <= Start(entries, row[i]) {
      if i < |row| - 1 {
        assert row[i + 1] in row;
        assert row[i + 1] in done;
      }
    }
  }

  lemma ReuseThread(threads: seq<int>, rows: seq<seq<string>>, done: seq<string>, entries: Entries,
                    name: string, t: nat)
    requires Packed(threads, rows, done, entries) && t < |threads| && name !in done
    requires EndsBefore(name, done, entries) && threads[t] >= End(entries, name)
    ensures Packed(threads[t := Start(entries, name)], rows[t := rows[t] + [name]], done + [name], entries)
  {
    ReuseRows(threads, rows, done, entries, name, t);
    ReuseDescends(threads, rows, done, entries, name, t);
    EarlyApart(rows[t := rows[t] + [name]], done, entries, name, t);
    CountNext(|rows|, done, entries, name, |rows|);
  }

  /** The last entries of all rows start before the new entry ends. */
  lemma LastsAreEarly(threads: seq<int>, rows: seq<seq<string>>, done: seq<string>, entries: Entries, end: int)
    requires ExactPartition(rows, done) && StartsOf(threads, rows, entries)
    requires forall t :: 0 <= t < |threads| ==> threads[t] < end
    ensures |rows| <= |Early(done, end, entries)|
  {
    var lasts := {};
    for t := 0 to |rows|
      invariant |lasts| == t && lasts <= Early(done, end, entries)
      invariant forall n :: n in lasts ==> exists u :: 0 <= u < t && n in rows[u]
    {
      var n := rows[t][|rows[t]| - 1];
      assert n in rows[t];
      assert n in done;
      assert n !in lasts;
      lasts := lasts + {n};
    }
    SubsetSize(lasts, Early(done, end, entries));
  }

  lemma OpenRows(rows: seq<seq<string>>, done: seq<string>, entries: Entries, name: string)
    requires ExactPartition(rows, done) && RowsDescend(rows, entries) && name !in done
    ensures ExactPartition(rows + [[name]], done + [name]) && RowsDescend(rows + [[name]], entries)
  {
    var rows' := rows + [[name]];
    forall n ensures n in done + [name] <==> exists u :: 0 <= u < |rows'| && n in rows'[u] {
      if n in done {
        var u :| 0 <= u < |rows| && n in rows[u];
        assert n in rows'[u];
      }
      if n == name {
        assert n in rows'[|rows|];
      }
    }
  }

  lemma OpenThread(threads: seq<int>, rows: seq<seq<string>>, done: seq<string>, entries: Entries, name: string)
    requires Packed(threads, rows, done, entries) && name !in done && EndsBefore(name, done, entries)
    requires forall t :: 0 <= t < |threads| ==> threads[t] < End(entries, name)
    ensures Packed(threads + [Start(entries, name)], rows + [[name]], done + [name], entries)
  {
    OpenRows(rows, done, entries, name);
    EarlyApart(rows + [[name]], done, entries, name, |rows|);
    LastsAreEarly(threads, rows, done, entries, End(entries, name));
    CountNext(|rows|, done, entries, name, |rows| + 1);
  }

  /** The inner loop: the first thread that starts no earlier than `end`. */
  method FirstAvailable(threads: seq<int>, end: int) returns (tid: int)
    ensures tid == FirstFit(threads, end)
  {
    for t := 0 to |threads|
      invariant forall u :: 0 <= u < t ==> threads[u] < end
    {
      if threads[t] >= end {
        return t;
      }
    }
    return -1;
  }

  function FirstFit(threads: seq<int>, end: int): (tid: int)
    ensures -1 <= tid < |threads|
    ensures tid >= 0 ==> threads[tid] >= end && forall t :: 0 <= t < tid ==> threads[t] < end
    ensures tid == -1 ==> forall t :: 0 <= t < |threads| ==> threads[t] < end
  {
    if threads == [] then -1
    else if threads[0] >= end then 0
    else var rest := FirstFit(threads[1..], end); if rest < 0 then -1 else rest + 1
  }

  /** The threads' start times and their rows. */
  datatype Packing = Packing(threads: seq<int>, rows: seq<seq<string>>)

  function Place(p: Packing, start: int, end: int, name: string): Packing
    requires |p.threads| == |p.rows|
  {
    var t := FirstFit(p.threads, end);
    if t < 0 then Packing(p.threads + [start], p.rows + [[name]])
    else Packing(p.threads[t := start], p.rows[t := p.rows[t] + [name]])
  }

  /** First fit for all names in turn. */
  function Greedy(names: seq<string>, entries: Entries): (p: Packing)
    ensures |p.threads| == |p.rows|
  {
    if names == [] then Packing([], [])
    else
      var last := names[|names| - 1];
      Place(Greedy(names[..|names| - 1], entries), Start(entries, last), End(entries, last), last)
  }

  /** The rows that `assign_entries_to_threads` returns. */
  function Assigned(order: seq<string>, entries: Entries): seq<seq<string>> {
    Greedy(Sort(order, EndsLater(entries)), entries).rows
  }

  /** What holds of no rows and is kept by placing each name in turn holds of the greedy rows. */
  lemma {:induction false} GreedyInduction(inv: (Packing, seq<string>) -> bool, names: seq<string>, i: nat,
      entries: Entries)
    requires i <= |names| && inv(Packing([], []), [])
    requires forall p: Packing, k :: 0 <= k < |names| && |p.threads| == |p.rows| && inv(p, names[..k]) ==>
               inv(Place(p, Start(entries, names[k]), End(entries, names[k]), names[k]), names[..k] + [names[k]])
    ensures inv(Greedy(names[..i], entries), names[..i])
  {
    if i > 0 {
      GreedyInduction(inv, names, i - 1, entries);
      assert names[..i] == names[..i - 1] + [names[i - 1]];
      assert names[..i][..i - 1] == names[..i - 1];
    } else {
      assert names[..i] == [];
    }
  }

  /** First fit keeps the rows packed. */
  lemma GreedyPacks(sortedKeys: seq<string>, entries: Entries)
    requires AllRaw(entries) && sortedKeys != []
    requires Distinct(sortedKeys) && Elements(sortedKeys) == entries.Keys && Sorted(sortedKeys, EndsLater(entries))
    ensures var p := Greedy(sortedKeys, entries); Packed(p.threads, p.rows, sortedKeys, entries) && p.rows != []
  {
    var inv := (p: Packing, done) => Packed(p.threads, p.rows, done, entries) && (done != [] ==> p.rows != []);
    forall p: Packing, k | 0 <= k < |sortedKeys| && |p.threads| == |p.rows| && inv(p, sortedKeys[..k])
      ensures inv(Place(p, Start(entries, sortedKeys[k]), End(entries, sortedKeys[k]), sortedKeys[k]),
                  sortedKeys[..k] + [sortedKeys[k]])
    {
      NextInOrder(sortedKeys, k, entries);
      PlaceKeeps(p, sortedKeys[..k], entries, sortedKeys[k]);
    }
    GreedyInduction(inv, sortedKeys, |sortedKeys|, entries);
    assert sortedKeys[..|sortedKeys|] == sortedKeys;
  }

  lemma PlaceKeeps(p: Packing, done: seq<string>, entries: Entries, name: string)
    requires |p.threads| == |p.rows| && AllRaw(entries) && Packed(p.threads, p.rows, done, entries)
    requires name !in done && name in entries && EndsBefore(name, done, entries)
    requires forall d :: d in done ==> d in entries
    ensures var q := Place(p, Start(entries, name), End(entries, name), name);
            Packed(q.threads, q.rows, done + [name], entries) && q.rows != []
  {
    var t := FirstFit(p.threads, End(entries, name));
    if t >= 0 {
      ReuseThread(p.threads, p.rows, done, entries, name, t);
    } else {
      OpenThread(p.threads, p.rows, done, entries, name);
    }
  }

  lemma SamePartition(rows: seq<seq<string>>, a: seq<string>, b: seq<string>)
    requires ExactPartition(rows, a) && Elements(a) == Elements(b)
    ensures ExactPartition(rows, b)
  {
    forall name ensures name in a <==> name in b {
      assert name in Elements(a) <==> name in Elements(b);
    }
  }

  lemma NextInOrder(sortedKeys: seq<string>, i: nat, entries: Entries)
    requires i < |sortedKeys| && Distinct(sortedKeys) && Elements(sortedKeys) == entries.Keys
    requires Sorted(sortedKeys, EndsLater(entries))
    ensures sortedKeys[i] in entries && sortedKeys[i] !in sortedKeys[..i]
    ensures EndsBefore(sortedKeys[i], sortedKeys[..i], entries)
    ensures forall d :: d in sortedKeys[..i] ==> d in entries
  {
    assert sortedKeys[i] in Elements(sortedKeys);
    forall d | d in sortedKeys[..i] ensures d in entries && End(entries, sortedKeys[i]) <= End(entries, d) {
      var k :| 0 <= k < i && sortedKeys[k] == d;
      assert EndsLater(entries)(sortedKeys[k], sortedKeys[i]);
      assert d in Elements(sortedKeys);
    }
  }

  lemma LatestFirst(sortedKeys: seq<string>, entries: Entries)
    requires sortedKeys != [] && Elements(sortedKeys) == entries.Keys && AllRaw(entries)
    requires Sorted(sortedKeys, EndsLater(entries))
    ensures sortedKeys[0] in entries
    ensures forall name :: name in entries ==> entries[name].end <= entries[sortedKeys[0]].end
  {
    assert sortedKeys[0] in Elements(sortedKeys);
    forall name | name in entries ensures entries[name].end <= entries[sortedKeys[0]].end {
      assert name in Elements(sortedKeys);
      var k :| 0 <= k < |sortedKeys| && sortedKeys[k] == name;
      assert k == 0 || EndsLater(entries)(sortedKeys[0], sortedKeys[k]);
    }
  }

  /** The rows are a valid assignment. */
  lemma RowsAreValid(rows: seq<seq<string>>, names: seq<string>, entries: Entries)
    returns (assignment: map<string, nat>)
    requires ExactPartition(rows, names) && RowsDescend(rows, entries) && Elements(names) == entries.Keys
    ensures Valid(assignment, |rows|, entries)
  {
    forall name | name in entries ensures exists u :: 0 <= u < |rows| && name in rows[u] {
      assert name in Elements(names);
    }
    assignment := map name | name in entries :: RowOf(rows, name);
    forall a, b, x | a in entries && b in entries && a != b && assignment[a] == assignment[b]
      ensures !(Covers(entries[a], x) && Covers(entries[b], x))
    {
      NeverTogether(rows, entries, assignment[a], a, b, x);
    }
  }

  lemma NeverTogether(rows: seq<seq<string>>, entries: Entries, t: nat, a: string, b: string, x: int)
    requires RowsDescend(rows, entries) && t < |rows| && a in rows[t] && b in rows[t] && a != b
    requires a in entries && b in entries
    ensures !(Covers(entries[a], x) && Covers(entries[b], x))
  {
    var i :| 0 <= i < |rows[t]| && rows[t][i] == a;
    var j :| 0 <= j < |rows[t]| && rows[t][j] == b;
    assert i < j || j < i;
  }

  /** What is counted before an entry builds when that entry ends, and so does the entry itself unless
      it never builds. */
  lemma BeforeIsBusy(names: seq<string>, k: nat, entries: Entries)
    requires k < |names| && AllRaw(entries)
    requires Distinct(names) && Elements(names) == entries.Keys && Sorted(names, EndsLater(entries))
    ensures Before(names, k, entries) <= Busy(entries, End(entries, names[k]))
    ensures |Before(names, k, entries)| <= |Busy(entries, End(entries, names[k]))|
    ensures Start(entries, names[k]) < End(entries, names[k]) ==>
              |Before(names, k, entries)| < |Busy(entries, End(entries, names[k]))|
  {
    NextInOrder(names, k, entries);
    var before, busy := Before(names, k, entries), Busy(entries, End(entries, names[k]));
    SubsetSize(before, busy);
    if Start(entries, names[k]) < End(entries, names[k]) {
      SubsetSize(before + {names[k]}, busy);
    }
  }

  /** The number of rows, exactly: the depth, or one more if an entry that never builds costs a row. */
  lemma RowsAreDepth(rows: seq<seq<string>>, names: seq<string>, entries: Entries, depth: nat)
    requires AllRaw(entries) && ExactPartition(rows, names) && RowsDescend(rows, entries)
    requires Counted(|rows|, names, entries)
    requires names != [] && Distinct(names) && Elements(names) == entries.Keys && Sorted(names, EndsLater(entries))
    requires IsDepth(depth, entries)
    ensures |rows| == depth + if CostsARow(names, depth, entries) then 1 else 0
  {
    var assignment := RowsAreValid(rows, names, entries);
    var x :| |Busy(entries, x)| == depth;
    DepthIsNeeded(assignment, |rows|, entries, x);
    assert |Before(names, 0, entries)| < |rows|;
    var k :| 0 <= k < |names| && |Before(names, k, entries)| + 1 == |rows|;
    BeforeIsBusy(names, k, entries);
    assert |Busy(entries, End(entries, names[k]))| <= depth;
  }

  lemma DepthExists(rows: seq<seq<string>>, names: seq<string>, entries: Entries)
    requires AllRaw(entries) && ExactPartition(rows, names) && RowsDescend(rows, entries)
    requires Counted(|rows|, names, entries)
    requires names != [] && Distinct(names) && Elements(names) == entries.Keys && Sorted(names, EndsLater(entries))
    ensures exists depth: nat :: IsDepth(depth, entries)
  {
    var assignment := RowsAreValid(rows, names, entries);
    forall x ensures |Busy(entries, x)| <= |rows| {
      DepthIsNeeded(assignment, |rows|, entries, x);
    }
    assert |Before(names, 0, entries)| < |rows|;
    var k :| 0 <= k < |names| && |Before(names, k, entries)| + 1 == |rows|;
    BeforeIsBusy(names, k, entries);
    if exists x :: |Busy(entries, x)| == |rows| {
      assert IsDepth(|rows|, entries);
    } else {
      assert |Busy(entries, End(entries, names[k]))| == |rows| - 1;
      assert IsDepth(|rows| - 1, entries);
    }
  }

  lemma AssignedRows(order: seq<string>, entries: Entries)
    requires order != [] && Distinct(order) && Elements(order) == entries.Keys && AllRaw(entries)
    ensures var rows := Assigned(order, entries);
            && ExactPartition(rows, order) && RowsDescend(rows, entries)
            && Counted(|rows|, Sort(order, EndsLater(entries)), entries)
            && forall t :: 0 <= t < |rows| ==> rows[t] != []
    ensures exists depth: nat :: IsDepth(depth, entries)
  {
    var names := Sort(order, EndsLater(entries));
    SortSorts(order, EndsLater(entries));
    SameElements(order, names);
    assert |names| == |multiset(names)| == |order|;
    GreedyPacks(names, entries);
    SamePartition(Assigned(order, entries), names, order);
    DepthExists(Assigned(order, entries), names, entries);
  }

  lemma AssignedCount(order: seq<string>, entries: Entries, depth: nat)
    requires order != [] && Distinct(order) && Elements(order) == entries.Keys && AllRaw(entries)
    requires IsDepth(depth, entries)
    ensures |Assigned(order, entries)|
         == depth + if CostsARow(Sort(order, EndsLater(entries)), depth, entries) then 1 else 0
    ensures ExactPartition(Assigned(order, entries), order) && RowsDescend(Assigned(order, entries), entries)
  {
    var names := Sort(order, EndsLater(entries));
    SortSorts(order, EndsLater(entries));
    SameElements(order, names);
    assert |names| == |multiset(names)| == |order|;
    AssignedRows(order, entries);
    SamePartition(Assigned(order, entries), order, names);
    RowsAreDepth(Assigned(order, entries), names, entries, depth);
  }

  lemma AssignedCounts(order: seq<string>, entries: Entries)
    requires order != [] && Distinct(order) && Elements(order) == entries.Keys && AllRaw(entries)
    ensures forall depth: nat :: IsDepth(depth, entries) ==>
              |Assigned(order, entries)|
                == depth + if CostsARow(Sort(order, EndsLater(entries)), depth, entries) then 1 else 0
  {
    forall depth: nat | IsDepth(depth, entries)
      ensures |Assigned(order, entries)|
           == depth + if CostsARow(Sort(order, EndsLater(entries)), depth, entries) then 1 else 0
    {
      AssignedCount(order, entries, depth);
    }
  }

  lemma SortedKeys(order: seq<string>, entries: Entries)
    requires order != [] && Elements(order) == entries.Keys && AllRaw(entries)
    ensures var names := Sort(order, EndsLater(entries));
            && names != [] && (forall i :: 0 <= i < |names| ==> names[i] in entries)
            && forall name :: name in entries ==> entries[name].end <= entries[names[0]].end
  {
    var names := Sort(order, EndsLater(entries));
    SortSorts(order, EndsLater(entries));
    SameElements(order, names);
    assert |names| == |multiset(names)| == |order|;
    forall i | 0 <= i < |names| ensures names[i] in entries {
      assert names[i] in Elements(names);
    }
    LatestFirst(names, entries);
  }

  /** `assign_entries_to_threads`. The rows are an exact partition of the entries, and no row holds two
      entries that build at one time. There are as many rows as entries that build at one time at most,
      and one more exactly when an entry that never builds comes after all of a largest such set. */
  method AssignEntriesToThreads(order: seq<string>, entries: Entries) returns (rows: seq<seq<string>>, endTime: int)
    requires order != [] && Distinct(order) && Elements(order) == entries.Keys && AllRaw(entries)
    ensures rows == Assigned(order, entries)
    ensures ExactPartition(rows, order) && RowsDescend(rows, entries)
    ensures forall t :: 0 <= t < |rows| ==> rows[t] != []
    ensures Counted(|rows|, Sort(order, EndsLater(entries)), entries)
    ensures exists depth: nat :: IsDepth(depth, entries)
    ensures forall depth: nat :: IsDepth(depth, entries) ==>
              |rows| == depth + if CostsARow(Sort(order, EndsLater(entries)), depth, entries) then 1 else 0
    ensures (exists name :: name in entries && endTime == entries[name].end)
         && forall name :: name in entries ==> entries[name].end <= endTime
  {
    var sortedKeys := Sort(order, EndsLater(entries));
    SortedKeys(order, entries);
    var threads: seq<int> := [];
    rows := [];
    for i := 0 to |sortedKeys|
      invariant Packing(threads, rows) == Greedy(sortedKeys[..i], entries)
    {
      var name := sortedKeys[i];
      assert sortedKeys[..i + 1][..i] == sortedKeys[..i];
      var tid := FirstAvailable(threads, entries[name].end);
      if tid >= 0 {
        threads := threads[tid := entries[name].start];
        rows := rows[tid := rows[tid] + [name]];
      } else {
        threads := threads + [entries[name].start];
        rows := rows + [[name]];
      }
    }
    endTime := entries[sortedKeys[0]].end;
    assert sortedKeys[..|sortedKeys|] == sortedKeys;
    AssignedRows(order, entries);
    AssignedCounts(order, entries);
  }

  lemma ProperCostsNothing(order: seq<string>, entries: Entries, depth: nat)
    requires Elements(order) == entries.Keys && AllRaw(entries) && Proper(entries)
    ensures !CostsARow(Sort(order, EndsLater(entries)), depth, entries)
  {
    var names := Sort(order, EndsLater(entries));
    SortSorts(order, EndsLater(entries));
    SameElements(order, names);
    forall k | 0 <= k < |names| ensures Start(entries, names[k]) < End(entries, names[k]) {
      assert names[k] in Elements(names);
    }
  }

  /** No valid assignment uses fewer threads than there are rows, unless an entry that never builds
      costs a row; for proper entries none ever does. */
  lemma NoFewerThreads(order: seq<string>, entries: Entries, assignment: map<string, nat>, m: nat, depth: nat)
    requires order != [] && Distinct(order) && Elements(order) == entries.Keys && AllRaw(entries)
    requires IsDepth(depth, entries) && Valid(assignment, m, entries)
    ensures |Assigned(order, entries)| <= m + 1
    ensures |Assigned(order, entries)| <= m || CostsARow(Sort(order, EndsLater(entries)), depth, entries)
    ensures Proper(entries) ==> |Assigned(order, entries)| <= m
  {
    AssignedCount(order, entries, depth);
    var x :| |Busy(entries, x)| == depth;
    DepthIsNeeded(assignment, m, entries, x);
    if Proper(entries) {
      ProperCostsNothing(order, entries, depth);
    }
  }

  lemma {:induction false} Listing(s: set<string>) returns (names: seq<string>)
    ensures Distinct(names) && Elements(names) == s
  {
    names := [];
    if s != {} {
      var x :| x in s;
      var rest := Listing(s - {x});
      forall i | 0 <= i < |rest| ensures rest[i] != x {
        assert rest[i] in Elements(rest);
      }
      names := [x] + rest;
      assert Elements(names) == {x} + Elements(rest);
    }
  }

  /** The entries that build at some time. */
  function ProperPart(entries: Entries): Entries {
    map name | name in entries && Start(entries, name) < End(entries, name) :: entries[name]
  }

  /** Entries that never build fit anywhere. */
  lemma PlaceEmpty(entries: Entries, placed: map<string, nat>, m: nat) returns (assignment: map<string, nat>)
    requires AllRaw(entries) && m > 0 && Valid(placed, m, ProperPart(entries))
    ensures Valid(assignment, m, entries)
  {
    var proper := ProperPart(entries);
    assignment := map name | name in entries :: if name in proper then placed[name] else 0;
    forall a, b, x | a in entries && b in entries && a != b && assignment[a] == assignment[b]
      ensures !(Covers(entries[a], x) && Covers(entries[b], x))
    {
      if a in proper && b in proper {
        assert !(Covers(proper[a], x) && Covers(proper[b], x));
      }
    }
  }

  lemma ProperDepth(entries: Entries, depth: nat)
    requires AllRaw(entries) && IsDepth(depth, entries)
    ensures IsDepth(depth, ProperPart(entries))
  {
    var proper := ProperPart(entries);
    forall x ensures Busy(proper, x) == Busy(entries, x) {
    }
    var x :| |Busy(entries, x)| == depth;
    assert |Busy(proper, x)| == depth;
  }

  /** As many threads as entries that build at one time are enough, though never none. */
  lemma DepthSuffices(entries: Entries, depth: nat) returns (assignment: map<string, nat>)
    requires AllRaw(entries) && IsDepth(depth, entries)
    ensures Valid(assignment, if depth > 0 then depth else 1, entries)
  {
    var proper := ProperPart(entries);
    ProperDepth(entries, depth);
    var placed := map[];
    if proper != map[] {
      var order := Listing(proper.Keys);
      assert order != [];
      AssignedCount(order, proper, depth);
      ProperCostsNothing(order, proper, depth);
      placed := RowsAreValid(Assigned(order, proper), order, proper);
      var name :| name in proper;
      assert placed[name] < depth;
    }
    assignment := PlaceEmpty(entries, placed, if depth > 0 then depth else 1);
  }

  /** First fit is not optimal exactly when an entry that never builds costs a row. */
  lemma WastesAThreadIff(order: seq<string>, entries: Entries, depth: nat)
    requires order != [] && Distinct(order) && Elements(order) == entries.Keys && AllRaw(entries)
    requires IsDepth(depth, entries)
    ensures (exists assignment, m: nat :: Valid(assignment, m, entries) && m < |Assigned(order, entries)|)
       <==> depth > 0 && CostsARow(Sort(order, EndsLater(entries)), depth, entries)
  {
    AssignedCount(order, entries, depth);
    if exists assignment, m: nat :: Valid(assignment, m, entries) && m < |Assigned(order, entries)| {
      var assignment, m: nat :| Valid(assignment, m, entries) && m < |Assigned(order, entries)|;
      NoFewerThreads(order, entries, assignment, m, depth);
      assert order[0] in Elements(order);
      assert m > 0;
    }
    if depth > 0 && CostsARow(Sort(order, EndsLater(entries)), depth, entries) {
      var assignment := DepthSuffices(entries, depth);
      assert Valid(assignment, depth, entries);
    }
  }

  lemma SortTwo(a: string, z: string, le: (string, string) -> bool)
    requires le(a, z)
    ensures Sort([a, z], le) == [a, z]
  {
    assert [a, z][1..] == [z] && [z][1..] == [];
    assert Sort([z], le) == Insert(z, Sort([z][1..], le), le);
  }

  /** With an empty entry the greedy rows can be one more than needed: two entries that never build at
      one time, in this order, end up in two rows. */
  lemma EmptyEntryCostsARow(entries: Entries, a: string, z: string)
    requires a != z && entries == map[a := Raw(3, 5, 0), z := Raw(5, 5, 0)]
    ensures Assigned([a, z], entries) == [[a], [z]]
    ensures IsDepth(1, entries) && CostsARow(Sort([a, z], EndsLater(entries)), 1, entries)
    ensures Valid(map[a := 0, z := 0], 1, entries)
  {
    SortTwo(a, z, EndsLater(entries));
    assert [a, z][..1] == [a] && [a][..0] == [];
    assert Greedy([a][..0], entries) == Packing([], []);
    assert Greedy([a], entries) == Place(Packing([], []), 3, 5, a);
    assert Greedy([a, z], entries) == Place(Packing([3], [[a]]), 5, 5, z);
    assert FirstFit([3], 5) == -1;
    forall x ensures |Busy(entries, x)| <= 1 {
      SubsetSize(Busy(entries, x), {a});
    }
    assert Busy(entries, 5) == {a};
    assert Before([a, z], 1, entries) == {a};
  }
}
