/** Temporary files and their owners (cpp/benchmarks/io/cuio_common.cpp): objects that are moved, assigned
    and destroyed in any order, and the files on disk. */
module TempFiles {
  import opened Sequences

  datatype IoType = FILEPATH | HOST_BUFFER | PINNED_BUFFER | DEVICE_BUFFER | VOID

  /** The directory: the file behind every name, numbered in the order of creation; the files removed
      so far; and how often a name without a file was to be removed. */
  datatype Files = Files(named: map<string, nat>, created: nat, removed: seq<nat>, misses: nat)

  /** An object: its type, its file name and whether it owns the file. */
  datatype Pair = Pair(kind: IoType, fileName: string, ownsFile: bool)

  /** `std::remove`. */
  function Removed(f: Files, name: string): Files {
    if name in f.named then f.(named := f.named - {name}, removed := f.removed + [f.named[name]])
    else f.(misses := f.misses + 1)
  }

  /** `mkstemp`, with the unused name it picks. */
  function Created(f: Files, name: string): Files {
    f.(named := f.named[name := f.created], created := f.created + 1)
  }

  /** What cleanup does when the object owns a file. */
  function Cleaned(f: Files, p: Pair): Files {
    if p.ownsFile then Removed(f, p.fileName) else f
  }

  // ----- programs over objects -----

  /** The objects that exist, by identity, and the files. */
  datatype World = World(objects: map<nat, Pair>, files: Files)

  /** What a program does with its objects. A move leaves some text in the moved string. */
  datatype Op =
    | Construct(id: nat, kind: IoType, name: string)
    | MoveConstruct(id: nat, source: nat, rest: string)
    | MoveAssign(id: nat, source: nat, rest: string)
    | Destroy(id: nat)

  predicate Legal(w: World, op: Op) {
    match op
    case Construct(id, _, name) => id !in w.objects && name !in w.files.named
    case MoveConstruct(id, source, _) => id !in w.objects && source in w.objects
    case MoveAssign(id, source, _) => id in w.objects && source in w.objects
    case Destroy(id) => id in w.objects
  }

  function Apply(w: World, op: Op): World
    requires Legal(w, op)
  {
    match op
    case Construct(id, kind, name) => World(w.objects[id := Pair(kind, name, true)], Created(w.files, name))
    case MoveConstruct(id, source, rest) =>
      World(w.objects[id := w.objects[source]][source := Pair(VOID, rest, false)], w.files)
    case MoveAssign(id, source, rest) =>
      if id == source then w
      else World(w.objects[id := w.objects[source]][source := Pair(VOID, rest, false)], Cleaned(w.files, w.objects[id]))
    case Destroy(id) => World(w.objects - {id}, Cleaned(w.files, w.objects[id]))
  }

  predicate Owns(w: World, id: nat, name: string) {
    id in w.objects && w.objects[id].ownsFile && w.objects[id].fileName == name
  }

  /** Every owned name is that of a file, every file has an owner, and only one. */
  ghost predicate OneOwnerEach(w: World) {
    && (forall id :: id in w.objects && w.objects[id].ownsFile ==> w.objects[id].fileName in w.files.named)
    && (forall name :: name in w.files.named ==> exists id :: Owns(w, id, name))
    && forall id, other, name :: Owns(w, id, name) && Owns(w, other, name) ==> id == other
  }

  /** Every file created so far is on disk under one name or was removed, once; nothing else was. */
  ghost predicate Accounted(f: Files) {
    && (forall s :: s in f.removed ==> s < f.created)
    && Distinct(f.removed)
    && (forall name :: name in f.named ==> f.named[name] < f.created && f.named[name] !in f.removed)
    && (forall a, b :: a in f.named && b in f.named && f.named[a] == f.named[b] ==> a == b)
    && (forall s :: 0 <= s < f.created && s !in f.removed ==> exists name :: name in f.named && f.named[name] == s)
    && f.misses == 0
  }

  ghost predicate Inv(w: World) {
    OneOwnerEach(w) && Accounted(w.files)
  }

  lemma CreateAccounted(f: Files, name: string)
    requires Accounted(f) && name !in f.named
    ensures Accounted(Created(f, name))
  {
    var g := Created(f, name);
    assert forall n :: n in g.named ==> g.named[n] == if n == name then f.created else f.named[n];
    forall s | 0 <= s < g.created && s !in g.removed ensures exists n :: n in g.named && g.named[n] == s {
      if s == f.created {
        assert g.named[name] == s;
      } else {
        var n :| n in f.named && f.named[n] == s;
        assert g.named[n] == s;
      }
    }
  }

  lemma RemoveAccounted(f: Files, name: string)
    requires Accounted(f) && name in f.named
    ensures Accounted(Removed(f, name))
  {
    var g := Removed(f, name);
    forall n | n in g.named ensures g.named[n] !in g.removed {
      assert g.named[n] != f.named[name];
    }
    forall s | 0 <= s < g.created && s !in g.removed ensures exists n :: n in g.named && g.named[n] == s {
      assert s !in f.removed;
      var n :| n in f.named && f.named[n] == s;
      assert n != name by {
        assert g.removed[|f.removed|] == f.named[name];
      }
      assert g.named[n] == s;
    }
  }

  lemma ConstructOwners(w: World, id: nat, p: Pair, files: Files)
    requires OneOwnerEach(w) && id !in w.objects && p.ownsFile && p.fileName !in w.files.named
    requires forall n :: n in files.named <==> n in w.files.named || n == p.fileName
    ensures OneOwnerEach(World(w.objects[id := p], files))
  {
    var v := World(w.objects[id := p], files);
    forall n | n in v.files.named ensures exists i :: Owns(v, i, n) {
      if n == p.fileName {
        assert Owns(v, id, n);
      } else {
        var i :| Owns(w, i, n);
        assert Owns(v, i, n);
      }
    }
    forall i, j, n | Owns(v, i, n) && Owns(v, j, n) ensures i == j {
      assert i == id || Owns(w, i, n);
      assert j == id || Owns(w, j, n);
    }
  }

  lemma ConstructKeeps(w: World, id: nat, kind: IoType, name: string)
    requires Inv(w) && Legal(w, Construct(id, kind, name))
    ensures Inv(Apply(w, Construct(id, kind, name)))
  {
    CreateAccounted(w.files, name);
    ConstructOwners(w, id, Pair(kind, name, true), Created(w.files, name));
  }

  /** Cleaning up after an object leaves every other file with its one owner. */
  lemma CleanKeeps(w: World, id: nat)
    requires Inv(w) && id in w.objects
    ensures Inv(World(w.objects - {id}, Cleaned(w.files, w.objects[id])))
  {
    var p := w.objects[id];
    var v := World(w.objects - {id}, Cleaned(w.files, p));
    if p.ownsFile {
      RemoveAccounted(w.files, p.fileName);
      assert Owns(w, id, p.fileName);
    }
    forall i | i in v.objects && v.objects[i].ownsFile ensures v.objects[i].fileName in v.files.named {
      assert Owns(w, i, v.objects[i].fileName);
    }
    forall n | n in v.files.named ensures exists i :: Owns(v, i, n) {
      var i :| Owns(w, i, n);
      assert Owns(v, i, n);
    }
    forall i, j, n | Owns(v, i, n) && Owns(v, j, n) ensures i == j {
      assert Owns(w, i, n) && Owns(w, j, n);
    }
  }

  /** A move hands over the file with the name. */
  lemma MoveKeeps(w: World, id: nat, source: nat, rest: string)
    requires Inv(w) && id !in w.objects && source in w.objects
    ensures Inv(World(w.objects[id := w.objects[source]][source := Pair(VOID, rest, false)], w.files))
  {
    var v := World(w.objects[id := w.objects[source]][source := Pair(VOID, rest, false)], w.files);
    forall n | n in v.files.named ensures exists i :: Owns(v, i, n) {
      var i :| Owns(w, i, n);
      assert Owns(v, if i == source then id else i, n);
    }
    forall i, j, n | Owns(v, i, n) && Owns(v, j, n) ensures i == j {
      assert Owns(w, if i == id then source else i, n) && Owns(w, if j == id then source else j, n);
    }
  }

  /** Every operation keeps the invariant, self-moves and moves from moved-from objects included. */
  lemma ApplyKeeps(w: World, op: Op)
    requires Inv(w) && Legal(w, op)
    ensures Inv(Apply(w, op))
  {
    match op
    case Construct(id, kind, name) => ConstructKeeps(w, id, kind, name);
    case MoveConstruct(id, source, rest) => MoveKeeps(w, id, source, rest);
    case MoveAssign(id, source, rest) =>
      if id != source {
        CleanKeeps(w, id);
        MoveKeeps(World(w.objects - {id}, Cleaned(w.files, w.objects[id])), id, source, rest);
        SameMap((w.objects - {id})[id := w.objects[source]][source := Pair(VOID, rest, false)],
                w.objects[id := w.objects[source]][source := Pair(VOID, rest, false)]);
      }
    case Destroy(id) => CleanKeeps(w, id);
  }

  predicate LegalRun(w: World, ops: seq<Op>)
    decreases |ops|
  {
    ops == [] || (Legal(w, ops[0]) && LegalRun(Apply(w, ops[0]), ops[1..]))
  }

  function Run(w: World, ops: seq<Op>): World
    requires LegalRun(w, ops)
    decreases |ops|
  {
    if ops == [] then w else Run(Apply(w, ops[0]), ops[1..])
  }

  const EMPTY := World(map[], Files(map[], 0, [], 0))

  lemma {:induction false} RunKeeps(w: World, ops: seq<Op>)
    requires Inv(w) && LegalRun(w, ops)
    ensures Inv(Run(w, ops))
    decreases |ops|
  {
    if ops != [] {
      ApplyKeeps(w, ops[0]);
      RunKeeps(Apply(w, ops[0]), ops[1..]);
    }
  }

  /** When all objects are gone, no file is left, and every file that was created was removed exactly
      once; no removal ever missed. */
  lemma NothingLeft(ops: seq<Op>)
    requires LegalRun(EMPTY, ops) && Run(EMPTY, ops).objects == map[]
    ensures var f := Run(EMPTY, ops).files;
            && f.named == map[] && f.misses == 0
            && forall s :: 0 <= s < f.created ==> multiset(f.removed)[s] == 1
  {
    RunKeeps(EMPTY, ops);
    var w := Run(EMPTY, ops);
    forall name ensures name !in w.files.named {
      assert forall id :: !Owns(w, id, name);
    }
    forall s | 0 <= s < w.files.created ensures multiset(w.files.removed)[s] == 1 {
      DistinctCount(w.files.removed, s);
    }
  }

  // ----- the class -----

  /** The temporary directory. */
  class TempDirectory {
    var files: Files

    constructor ()
      ensures files == Files(map[], 0, [], 0)
    {
      files := Files(map[], 0, [], 0);
    }

    /** `random_file_in_dir`, given the name that mkstemp picks. */
    method RandomFileInDir(name: string) returns (filename: string)
      requires name !in files.named
      modifies this
      ensures filename == name && files == Created(old(files), name)
    {
      files := files.(named := files.named[name := files.created], created := files.created + 1);
      filename := name;
    }

    method Remove(name: string)
      modifies this
      ensures files == Removed(old(files), name)
    {
      if name in files.named {
        files := files.(named := files.named - {name}, removed := files.removed + [files.named[name]]);
      } else {
        files := files.(misses := files.misses + 1);
      }
    }
  }

  /** `cuio_source_sink_pair`, without its buffers. */
  class SourceSinkPair {
    var kind: IoType
    var fileName: string
    var ownsFile: bool

    function Value(): Pair
      reads this
    {
      Pair(kind, fileName, ownsFile)
    }

    constructor (kind: IoType, tmpdir: TempDirectory, name: string)
      requires name !in tmpdir.files.named
      modifies tmpdir
      ensures Value() == Pair(kind, name, true) && tmpdir.files == Created(old(tmpdir.files), name)
    {
      this.kind := kind;
      this.ownsFile := true;
      this.fileName := name;
      new;
      fileName := tmpdir.RandomFileInDir(name);
    }

    /** The move constructor; `rest` is what the move leaves in the source's string. */
    constructor Move(ss: SourceSinkPair, rest: string)
      modifies ss
      ensures Value() == old(ss.Value()) && ss.Value() == Pair(VOID, rest, false)
    {
      kind := ss.kind;
      fileName := ss.fileName;
      ownsFile := ss.ownsFile;
      new;
      ss.kind := VOID;
      ss.fileName := rest;
      ss.ownsFile := false;
    }

    method Cleanup(tmpdir: TempDirectory)
      modifies tmpdir
      ensures tmpdir.files == Removed(old(tmpdir.files), fileName)
    {
      tmpdir.Remove(fileName);
    }

    /** The move assignment. */
    method Assign(ss: SourceSinkPair, rest: string, tmpdir: TempDirectory)
      modifies this, ss, tmpdir
      ensures this == ss ==> Value() == old(Value()) && tmpdir.files == old(tmpdir.files)
      ensures this != ss ==> Value() == old(ss.Value()) && ss.Value() == Pair(VOID, rest, false)
      ensures this != ss ==> tmpdir.files == Cleaned(old(tmpdir.files), old(Value()))
    {
      if this != ss {
        if ownsFile {
          Cleanup(tmpdir);
        }
        kind, ss.kind := ss.kind, VOID;
        fileName, ss.fileName := ss.fileName, rest;
        ownsFile, ss.ownsFile := ss.ownsFile, false;
      }
    }

    /** The destructor. */
    method Destroy(tmpdir: TempDirectory)
      modifies tmpdir
      ensures tmpdir.files == Cleaned(old(tmpdir.files), Value())
    {
      if ownsFile {
        Cleanup(tmpdir);
      }
    }
  }

  /** A program that holds objects by identity. */
  class Program {
    var objects: map<nat, SourceSinkPair>
    const tmpdir: TempDirectory

    constructor ()
      ensures Valid() && State() == EMPTY && fresh(tmpdir)
    {
      objects := map[];
      tmpdir := new TempDirectory();
    }

    /** Different identities are different objects. */
    ghost predicate Valid()
      reads this
    {
      forall i, j :: i in objects && j in objects && objects[i] == objects[j] ==> i == j
    }

    ghost function State(): World
      reads this, tmpdir, objects.Values
    {
      World(map id | id in objects :: objects[id].Value(), tmpdir.files)
    }

    method ExecuteConstruct(id: nat, kind: IoType, name: string)
      requires Valid() && Legal(State(), Construct(id, kind, name))
      modifies this, tmpdir
      ensures Valid() && State() == Apply(old(State()), Construct(id, kind, name))
      ensures fresh(objects.Values - old(objects.Values))
    {
      var p := new SourceSinkPair(kind, tmpdir, name);
      objects := objects[id := p];
    }

    method ExecuteMoveConstruct(id: nat, source: nat, rest: string)
      requires Valid() && Legal(State(), MoveConstruct(id, source, rest))
      modifies this, objects.Values
      ensures Valid() && State() == Apply(old(State()), MoveConstruct(id, source, rest))
      ensures fresh(objects.Values - old(objects.Values))
    {
      var p := new SourceSinkPair.Move(objects[source], rest);
      objects := objects[id := p];
    }

    method Execute(op: Op)
      requires Valid() && Legal(State(), op)
      modifies this, tmpdir, objects.Values
      ensures Valid() && State() == Apply(old(State()), op)
      ensures fresh(objects.Values - old(objects.Values))
    {
      if op.Construct? {
        ExecuteConstruct(op.id, op.kind, op.name);
      } else if op.MoveConstruct? {
        ExecuteMoveConstruct(op.id, op.source, op.rest);
      } else if op.MoveAssign? {
        objects[op.id].Assign(objects[op.source], op.rest, tmpdir);
      } else {
        objects[op.id].Destroy(tmpdir);
        objects := objects - {op.id};
      }
    }

    /** Any legal sequence of operations, with what it means for the files. */
    method ExecuteAll(ops: seq<Op>)
      requires Valid() && State() == EMPTY && LegalRun(EMPTY, ops)
      modifies this, tmpdir, objects.Values
      ensures Valid() && State() == Run(EMPTY, ops) && Inv(State())
      ensures objects == map[] ==> tmpdir.files.named == map[] && tmpdir.files.misses == 0
      ensures objects == map[] ==> forall s :: 0 <= s < tmpdir.files.created ==> multiset(tmpdir.files.removed)[s] == 1
    {
      for k := 0 to |ops|
        invariant Valid() && LegalRun(State(), ops[k..]) && Run(State(), ops[k..]) == Run(EMPTY, ops)
        invariant fresh(objects.Values - old(objects.Values))
      {
        assert ops[k..][0] == ops[k] && ops[k..][1..] == ops[k + 1..];
        Execute(ops[k]);
      }
      assert ops[|ops|..] == [];
      RunKeeps(EMPTY, ops);
      if objects == map[] {
        assert Run(EMPTY, ops).objects == map[];
        NothingLeft(ops);
      }
    }
  }
}
