/** The rest of cpp/scripts/sort_ninja_log.py: which entries of a log count, and the chart loop, which
    overwrites every entry with its build time and colour. */
module NinjaChart {
  import opened NinjaThreads
  import opened Sequences

  // ----- reading the log -----

  /** The five fields of an entry. */
  datatype Fields = Fields(start: int, end: int, objectFile: string, command: string, size: int)

  /** A line of the log: with fewer than five fields, or an entry. */
  datatype Line = Other | Entry(fields: Fields)

  function EntriesOf(lines: seq<Line>): seq<Fields> {
    if lines == [] then []
    else
      var last := lines[|lines| - 1];
      EntriesOf(lines[..|lines| - 1]) + if last.Entry? then [last.fields] else []
  }

  /** Ends that do not go back in time: entries of one build. */
  ghost predicate OneBuild(build: seq<Fields>) {
    forall i :: 0 < i < |build| ==> build[i - 1].end <= build[i].end
  }

  /** `build` starts where time last went back. */
  ghost predicate Cut(earlier: seq<Fields>, build: seq<Fields>) {
    earlier == [] || (build != [] && build[0].end < earlier[|earlier| - 1].end)
  }

  /** The last build of a log: the longest suffix of its entries that is one build. */
  ghost predicate LastBuild(earlier: seq<Fields>, build: seq<Fields>, entries: seq<Fields>) {
    entries == earlier + build && OneBuild(build) && Cut(earlier, build)
  }

  predicate Known(files: seq<Fields>, command: string) {
    exists k :: 0 <= k < |files| && files[k].command == command
  }

  /** `files.setdefault(command, entry)`. */
  function SetDefault(files: seq<Fields>, f: Fields): (r: seq<Fields>)
    ensures files <= r && Known(r, f.command)
    ensures forall k :: 0 <= k < |files| ==> r[k] == files[k]
  {
    var r := if Known(files, f.command) then files else files + [f];
    assert !Known(files, f.command) ==> r[|files|].command == f.command;
    r
  }

  /** The first entry of every command of a build, in order. */
  function FirstPerCommand(build: seq<Fields>): (first: seq<Fields>)
    ensures forall f :: f in first ==> f in build
    ensures forall i :: 0 <= i < |build| ==> Known(first, build[i].command)
    ensures forall i, k :: 0 <= i < k < |first| ==> first[i].command != first[k].command
  {
    if build == [] then []
    else
      var init := FirstPerCommand(build[..|build| - 1]);
      SetDefault(init, build[|build| - 1])
  }

  /** `entries` holds, per object file, the last of the listed lines. */
  ghost predicate LastPerObject(entries: Entries, files: seq<Fields>) {
    && (forall i :: 0 <= i < |files| ==> files[i].objectFile in entries)
    && (forall name :: name in entries ==> exists i :: IsLastOf(name, entries[name], files, i))
  }

  ghost predicate IsLastOf(name: string, s: Slot, files: seq<Fields>, i: int) {
    && 0 <= i < |files| && files[i].objectFile == name && s == Raw(files[i].start, files[i].end, files[i].size)
    && forall k :: i < k < |files| ==> files[k].objectFile != name
  }

  /** The first loop of build_log_map: the state after the lines of the log. */
  ghost predicate Scanned(entries: seq<Fields>, earlier: seq<Fields>, build: seq<Fields>, last: int,
      files: seq<Fields>) {
    && LastBuild(earlier, build, entries)
    && (build == [] ==> earlier == [] && last == 0)
    && (build != [] ==> last == build[|build| - 1].end)
    && files == FirstPerCommand(build)
  }

  lemma ScanReset(entries: seq<Fields>, earlier: seq<Fields>, build: seq<Fields>, last: int, files: seq<Fields>,
      f: Fields)
    requires Scanned(entries, earlier, build, last, files) && f.end < last && build != []
    ensures Scanned(entries + [f], earlier + build, [f], f.end, SetDefault([], f))
  {
    assert [f][..0] == [];
    assert FirstPerCommand([f]) == SetDefault(FirstPerCommand([f][..0]), f);
    assert entries + [f] == (earlier + build) + [f];
  }

  lemma ScanOn(entries: seq<Fields>, earlier: seq<Fields>, build: seq<Fields>, last: int, files: seq<Fields>, f: Fields)
    requires Scanned(entries, earlier, build, last, files) && (f.end >= last || build == [])
    ensures Scanned(entries + [f], earlier, build + [f], f.end, SetDefault(files, f))
  {
    assert (build + [f])[..|build|] == build;
    assert entries + [f] == earlier + (build + [f]);
  }

  /** The end of the last entry, and the files of its build so far. */
  datatype Scan = Scan(last: int, files: seq<Fields>)

  function ScanEntry(s: Scan, f: Fields): Scan {
    Scan(f.end, SetDefault(if f.end < s.last then [] else s.files, f))
  }

  function ScanLog(lines: seq<Line>): Scan {
    if lines == [] then Scan(0, [])
    else
      var s, last := ScanLog(lines[..|lines| - 1]), lines[|lines| - 1];
      if last.Entry? then ScanEntry(s, last.fields) else s
  }

  lemma ScanEntryKeeps(entries: seq<Fields>, earlier: seq<Fields>, build: seq<Fields>, s: Scan, f: Fields)
    returns (earlier': seq<Fields>, build': seq<Fields>)
    requires Scanned(entries, earlier, build, s.last, s.files)
    ensures Scanned(entries + [f], earlier', build', ScanEntry(s, f).last, ScanEntry(s, f).files)
  {
    if f.end < s.last && build != [] {
      ScanReset(entries, earlier, build, s.last, s.files, f);
      earlier', build' := earlier + build, [f];
    } else {
      ScanOn(entries, earlier, build, s.last, s.files, f);
      earlier', build' := earlier, build + [f];
    }
  }

  lemma {:induction false} ScanFindsLastBuild(lines: seq<Line>) returns (earlier: seq<Fields>, build: seq<Fields>)
    ensures Scanned(EntriesOf(lines), earlier, build, ScanLog(lines).last, ScanLog(lines).files)
  {
    if lines == [] {
      earlier, build := [], [];
    } else {
      var init, l := lines[..|lines| - 1], lines[|lines| - 1];
      earlier, build := ScanFindsLastBuild(init);
      if l.Entry? {
        earlier, build := ScanEntryKeeps(EntriesOf(init), earlier, build, ScanLog(init), l.fields);
      }
    }
  }

  /** `build_log_map`, on lines already split into fields. Only the last build counts, in it only the
      first entry of every command, and of several commands for one object file the last. */
  method BuildLogMap(lines: seq<Line>) returns (entries: Entries, ghost earlier: seq<Fields>, ghost build: seq<Fields>)
    ensures LastBuild(earlier, build, EntriesOf(lines))
    ensures LastPerObject(entries, FirstPerCommand(build)) && AllRaw(entries)
  {
    var last, files := 0, [];
    for i := 0 to |lines|
      invariant Scan(last, files) == ScanLog(lines[..i])
    {
      assert lines[..i + 1][..i] == lines[..i];
      if lines[i].Entry? {
        var f := lines[i].fields;
        if f.end < last {
          files := [];
        }
        last := f.end;
        files := SetDefault(files, f);
      }
    }
    assert lines[..|lines|] == lines;
    earlier, build := ScanFindsLastBuild(lines);
    entries := ByObject(files);
  }

  /** The second loop of build_log_map. */
  method ByObject(files: seq<Fields>) returns (entries: Entries)
    ensures LastPerObject(entries, files) && AllRaw(entries)
  {
    entries := map[];
    for i := 0 to |files|
      invariant LastPerObject(entries, files[..i]) && AllRaw(entries)
    {
      AddObject(entries, files[..i], files[i], files[..i + 1]);
      entries := entries[files[i].objectFile := Raw(files[i].start, files[i].end, files[i].size)];
    }
    assert files[..|files|] == files;
  }

  lemma AddObject(entries: Entries, files: seq<Fields>, f: Fields, more: seq<Fields>)
    requires LastPerObject(entries, files) && more == files + [f]
    ensures LastPerObject(entries[f.objectFile := Raw(f.start, f.end, f.size)], more)
  {
    var after := entries[f.objectFile := Raw(f.start, f.end, f.size)];
    forall name | name in after ensures exists k :: IsLastOf(name, after[name], more, k) {
      if name == f.objectFile {
        assert IsLastOf(name, after[name], more, |files|);
      } else {
        var k :| IsLastOf(name, entries[name], files, k);
        assert IsLastOf(name, after[name], more, k);
      }
    }
  }

  // ----- the chart -----

  /** The colour of a build time in milliseconds. */
  function ColorOf(buildTime: int): (c: Color)
    ensures c.RED? <==> buildTime > 300000
    ensures c.YELLOW? <==> 120000 < buildTime <= 300000
    ensures c.GREEN? <==> 1000 < buildTime <= 120000
  {
    if buildTime > 300000 then RED else if buildTime > 120000 then YELLOW else if buildTime > 1000 then GREEN else WHITE
  }

  /** What becomes of an entry. */
  function Drawn(s: Slot): Slot
    requires s.Raw?
  {
    Done(s.end - s.start, ColorOf(s.end - s.start), s.size)
  }

  /** How long an entry took. */
  function Time(s: Slot): int {
    if s.Raw? then s.end - s.start else 0
  }

  /** An entry's times are replaced by their difference and its colour. */
  ghost predicate IsDrawn(before: Slot, after: Slot) {
    && before.Raw? && after.Done? && after.buildTime == before.end - before.start && after.size == before.size
    && after.color == (if after.buildTime > 300000 then RED else if after.buildTime > 120000 then YELLOW
                       else if after.buildTime > 1000 then GREEN else WHITE)
  }

  /** The four counts of the entries by how long they took. */
  ghost predicate CountsTimes(t: Summary, original: Entries) {
    && t.red == |set name | name in original && 300000 < Time(original[name])|
    && t.yellow == |set name | name in original && 120000 < Time(original[name]) <= 300000|
    && t.green == |set name | name in original && 1000 < Time(original[name]) <= 120000|
    && t.white == |set name | name in original && Time(original[name]) <= 1000|
  }

  lemma TallyMeans(original: Entries)
    requires AllRaw(original)
    ensures CountsTimes(Tally(original, original.Keys), original)
  {
    var all := original.Keys;
    assert Colored(original, all, RED) == set name | name in original && 300000 < Time(original[name]);
    assert Colored(original, all, YELLOW) == set name | name in original && 120000 < Time(original[name]) <= 300000;
    assert Colored(original, all, GREEN) == set name | name in original && 1000 < Time(original[name]) <= 120000;
    assert Colored(original, all, WHITE) == set name | name in original && Time(original[name]) <= 1000;
  }

  /** The names whose entry has the colour. */
  function Colored(original: Entries, done: set<string>, color: Color): set<string> {
    set name | name in done && name in original && original[name].Raw? && Drawn(original[name]).color == color
  }

  datatype Summary = Summary(red: nat, yellow: nat, green: nat, white: nat)

  function Tally(original: Entries, done: set<string>): Summary {
    Summary(|Colored(original, done, RED)|, |Colored(original, done, YELLOW)|, |Colored(original, done, GREEN)|,
            |Colored(original, done, WHITE)|)
  }

  function Count(s: Summary, c: Color): Summary {
    match c
    case RED => s.(red := s.red + 1)
    case YELLOW => s.(yellow := s.yellow + 1)
    case GREEN => s.(green := s.green + 1)
    case WHITE => s.(white := s.white + 1)
  }

  lemma ColoredStep(original: Entries, done: set<string>, name: string, color: Color)
    requires name in original && original[name].Raw? && name !in done
    ensures Colored(original, done + {name}, color)
         == Colored(original, done, color) + if Drawn(original[name]).color == color then {name} else {}
  {
  }

  lemma TallyStep(original: Entries, done: set<string>, name: string)
    requires name in original && original[name].Raw? && name !in done
    ensures Tally(original, done + {name}) == Count(Tally(original, done), Drawn(original[name]).color)
  {
    ColoredStep(original, done, name, RED);
    ColoredStep(original, done, name, YELLOW);
    ColoredStep(original, done, name, GREEN);
    ColoredStep(original, done, name, WHITE);
  }

  function ColorIn(original: Entries, name: string): Color {
    if name in original && original[name].Raw? then Drawn(original[name]).color else WHITE
  }

  /** Counting the colours of the names, one after another. */
  function CountAll(s: Summary, original: Entries, names: seq<string>): Summary {
    if names == [] then s
    else Count(CountAll(s, original, names[..|names| - 1]), ColorIn(original, names[|names| - 1]))
  }

  /** The entry overwritten, if it still holds times. */
  function DrawOne(entries: Entries, name: string): Entries {
    if name in entries && entries[name].Raw? then entries[name := Drawn(entries[name])] else entries
  }

  /** The names overwritten, one after another. */
  function DrawAll(entries: Entries, names: seq<string>): Entries {
    if names == [] then entries else DrawOne(DrawAll(entries, names[..|names| - 1]), names[|names| - 1])
  }

  lemma {:induction false} DrawAllOthers(entries: Entries, names: seq<string>, name: string)
    requires name in entries && name !in names
    ensures name in DrawAll(entries, names) && DrawAll(entries, names)[name] == entries[name]
  {
    if names != [] {
      DrawAllOthers(entries, names[..|names| - 1], name);
    }
  }

  /** Drawing names that are not yet drawn adds them to what is drawn and counts their colours. */
  lemma {:induction false} DrawAllTallies(entries: Entries, original: Entries, done: set<string>, names: seq<string>)
    requires AllRaw(original) && DrawnSoFar(entries, original, done)
    requires Distinct(names) && forall name :: name in names ==> name in original && name !in done
    ensures DrawnSoFar(DrawAll(entries, names), original, done + Elements(names))
    ensures CountAll(Tally(original, done), entries, names) == Tally(original, done + Elements(names))
  {
    if names == [] {
      assert done + Elements(names) == done;
    } else {
      var init, last := names[..|names| - 1], names[|names| - 1];
      DistinctLast(names);
      DrawAllTallies(entries, original, done, init);
      TallyStep(original, done + Elements(init), last);
      assert done + Elements(names) == done + Elements(init) + {last};
    }
  }

  /** Every entry has one colour. */
  lemma {:induction false} TallyTotal(original: Entries, done: set<string>)
    requires AllRaw(original) && done <= original.Keys
    ensures var t := Tally(original, done); t.red + t.yellow + t.green + t.white == |done|
    decreases |done|
  {
    if done != {} {
      var name :| name in done;
      TallyTotal(original, done - {name});
      TallyStep(original, done - {name}, name);
      assert done - {name} + {name} == done;
    }
  }

  /** The entries that are drawn are as they should be, and the others untouched. */
  ghost predicate DrawnSoFar(entries: Entries, original: Entries, done: set<string>) {
    && entries.Keys == original.Keys
    && forall name :: name in original && original[name].Raw? ==>
         entries[name] == if name in done then Drawn(original[name]) else original[name]
  }

  /** The script's table of entries. */
  class Metrics {
    var entries: Entries
    var summary: Summary

    constructor (entries: Entries)
      ensures this.entries == entries && this.summary == Summary(0, 0, 0, 0)
    {
      this.entries := entries;
      this.summary := Summary(0, 0, 0, 0);
    }

    /** One row of the chart: the names are sorted and read while they still hold times; each is
        overwritten and counted once. */
    method DrawRow(names: seq<string>) returns (ghost row: seq<string>)
      requires names != [] && Distinct(names)
      requires forall name :: name in names ==> name in entries && entries[name].Raw?
      modifies this
      ensures Distinct(row) && forall name :: name in row <==> name in names
      ensures forall i, j :: 0 <= i < j < |row| ==> Start(old(entries), row[i]) <= Start(old(entries), row[j])
      ensures entries == DrawAll(old(entries), row) && summary == CountAll(old(summary), old(entries), row)
    {
      var inOrder := Sort(names, StartsEarlier(entries));
      row := inOrder;
      RowSorted(names, entries);
      for k := 0 to |inOrder|
        invariant entries == DrawAll(old(entries), row[..k])
            && summary == CountAll(old(summary), old(entries), row[..k])
      {
        var name := inOrder[k];
        assert name in row && name !in row[..k];
        DrawAllOthers(old(entries), row[..k], name);
        assert row[..k + 1][..k] == row[..k] && row[..k + 1][k] == name;
        var entry := entries[name];
        var start, end := entry.start, entry.end;
        var buildTime := end - start;
        var color := ColorOf(buildTime);
        summary := Count(summary, color);
        entries := entries[name := Done(buildTime, color, entry.size)];
      }
      assert row[..|row|] == row;
    }

    /** The chart loop. On an exact partition it never reads an entry that it has overwritten; it leaves
        every entry's build time, colour and size in place, and counts every entry once. */
    method DrawChart(rows: seq<seq<string>>, ghost order: seq<string>)
      requires AllRaw(entries) && summary == Summary(0, 0, 0, 0)
      requires ExactPartition(rows, order) && Elements(order) == entries.Keys
      requires forall t :: 0 <= t < |rows| ==> rows[t] != []
      modifies this
      ensures entries.Keys == old(entries.Keys)
      ensures forall name :: name in entries ==> IsDrawn(old(entries)[name], entries[name])
      ensures CountsTimes(summary, old(entries))
      ensures summary.red + summary.yellow + summary.green + summary.white == |entries|
    {
      ghost var original, done := entries, {};
      for tid := 0 to |rows|
        invariant DrawnSoFar(entries, original, done) && summary == Tally(original, done)
        invariant forall name :: name in done <==> InRows(rows[..tid], name)
      {
        NextRow(rows, order, tid, entries, original, done);
        ghost var before := entries;
        ghost var row := DrawRow(rows[tid]);
        RowDrawn(rows, order, tid, before, original, done, row);
        done := done + Elements(row);
      }
      ChartDone(entries, rows, order, original, done);
    }

    /** `output_html`, as far as it computes. */
    method OutputHtml(order: seq<string>)
      requires AllRaw(entries) && summary == Summary(0, 0, 0, 0)
      requires order != [] && Distinct(order) && Elements(order) == entries.Keys
      modifies this
      ensures entries.Keys == old(entries.Keys)
      ensures forall name :: name in entries ==> IsDrawn(old(entries)[name], entries[name])
      ensures CountsTimes(summary, old(entries))
      ensures summary.red + summary.yellow + summary.green + summary.white == |entries|
    {
      var rows, endTime := AssignEntriesToThreads(order, entries);
      DrawChart(rows, order);
    }
  }

  ghost predicate InRows(rows: seq<seq<string>>, name: string) {
    exists t :: 0 <= t < |rows| && name in rows[t]
  }

  lemma NextRow(rows: seq<seq<string>>, order: seq<string>, tid: nat, entries: Entries, original: Entries,
      done: set<string>)
    requires ExactPartition(rows, order) && Elements(order) == original.Keys && tid < |rows|
    requires AllRaw(original) && DrawnSoFar(entries, original, done)
    requires forall name :: name in done <==> InRows(rows[..tid], name)
    ensures forall name :: name in rows[tid] ==> name in original && name !in done
    ensures forall name :: name in rows[tid] ==> name in entries && entries[name].Raw?
  {
    forall name | name in rows[tid] ensures name in original && name !in done {
      assert name in order;
      assert name in Elements(order);
    }
  }

  lemma RowsSoFar(rows: seq<seq<string>>, tid: nat, name: string)
    requires tid < |rows|
    ensures InRows(rows[..tid + 1], name) <==> InRows(rows[..tid], name) || name in rows[tid]
  {
    if InRows(rows[..tid], name) {
      var t :| 0 <= t < tid && name in rows[..tid][t];
      assert name in rows[..tid + 1][t];
    }
    if name in rows[tid] {
      assert name in rows[..tid + 1][tid];
    }
  }

  lemma RowDrawn(rows: seq<seq<string>>, order: seq<string>, tid: nat, entries: Entries, original: Entries,
                 done: set<string>, row: seq<string>)
    requires ExactPartition(rows, order) && Elements(order) == original.Keys && tid < |rows|
    requires AllRaw(original) && DrawnSoFar(entries, original, done)
    requires forall name :: name in done <==> InRows(rows[..tid], name)
    requires Distinct(row) && forall name :: name in row <==> name in rows[tid]
    ensures forall name :: name in done + Elements(row) <==> InRows(rows[..tid + 1], name)
    ensures DrawnSoFar(DrawAll(entries, row), original, done + Elements(row))
    ensures CountAll(Tally(original, done), entries, row) == Tally(original, done + Elements(row))
  {
    NextRow(rows, order, tid, entries, original, done);
    DrawAllTallies(entries, original, done, row);
    forall name ensures name in done + Elements(row) <==> InRows(rows[..tid + 1], name) {
      RowsSoFar(rows, tid, name);
    }
  }

  /** After the last row everything is drawn. */
  lemma ChartDone(entries: Entries, rows: seq<seq<string>>, order: seq<string>, original: Entries, done: set<string>)
    requires ExactPartition(rows, order) && Elements(order) == original.Keys && AllRaw(original)
    requires DrawnSoFar(entries, original, done)
    requires forall name :: name in done <==> InRows(rows[..|rows|], name)
    ensures done == original.Keys && entries.Keys == original.Keys
    ensures forall name :: name in entries ==> IsDrawn(original[name], entries[name])
    ensures CountsTimes(Tally(original, original.Keys), original)
    ensures var t := Tally(original, original.Keys); t.red + t.yellow + t.green + t.white == |entries|
  {
    assert rows[..|rows|] == rows;
    forall name ensures name in done <==> name in original {
      assert name in Elements(order) <==> name in order;
    }
    assert done == original.Keys;
    AllDrawn(entries, original);
    TallyTotal(original, done);
    TallyMeans(original);
    assert |entries| == |entries.Keys|;
  }

  lemma AllDrawn(entries: Entries, original: Entries)
    requires AllRaw(original) && DrawnSoFar(entries, original, original.Keys)
    ensures forall name :: name in entries ==> IsDrawn(original[name], entries[name])
  {
  }

  lemma RowSorted(names: seq<string>, entries: Entries)
    requires Distinct(names)
    ensures var row := Sort(names, StartsEarlier(entries));
            && Distinct(row) && (forall name :: name in row <==> name in names)
            && forall i, j :: 0 <= i < j < |row| ==> Start(entries, row[i]) <= Start(entries, row[j])
  {
    SortSorts(names, StartsEarlier(entries));
    SameElements(names, Sort(names, StartsEarlier(entries)));
    var row := Sort(names, StartsEarlier(entries));
    forall i, j | 0 <= i < j < |row| ensures Start(entries, row[i]) <= Start(entries, row[j]) {
      assert StartsEarlier(entries)(row[i], row[j]);
    }
    forall name ensures name in Sort(names, StartsEarlier(entries)) <==> name in names {
      assert name in Elements(names) <==> name in Elements(Sort(names, StartsEarlier(entries)));
    }
  }
}
