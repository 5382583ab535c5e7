/** The module registry: which module an import gets, as a compiled file, a native or synthetic module,
    or an entry module. */
module ModuleRegistry {
  import opened Common

  datatype Kind = JavaScript | Json

  /** A compiled module, by an identity and the kind it was compiled as. */
  datatype Module = Module(obj: nat, kind: Kind)

  const JSON_PREFIX := "json:"

  predicate HasPrefix(key: string): (has: bool)
    ensures has ==> key != "" && key[0] == 'j'
  {
    JSON_PREFIX <= key
  }

  /** A file name with something before `.json`, in any case. */
  predicate HasJsonExtension(path: string) {
    |path| > 5 && Lower(path[|path| - 5..]) == ".json" && path[|path| - 6] != '/'
  }

  predicate IsAbsolutePath(path: string) {
    path != "" && path[0] == '/'
  }

  function FileKey(kind: Kind, path: string): string {
    match kind
    case JavaScript => path
    case Json => JSON_PREFIX + path
  }

  /** What reaches the loader. An import comes with the canonical path it resolves to, if any, and
      the module that reading and compiling the file would make, if both work. Registering a native
      or synthetic module runs code between storing the module and knowing whether it is complete. */
  datatype Op =
    | Import(kind: Kind, specifier: string, path: Option<string>, compiled: Option<nat>)
    | Native(name: string, obj: nat, during: seq<Op>, populated: bool)
    | Entry(file: string, obj: nat)
    | NamedEntry(name: string, obj: nat)
    | Clear

  datatype Loader = Loader(registry: map<string, Module>, entry: Option<string>)

  /** An import's outcome, with the file it was resolved to unless the registry had its specifier. */
  datatype Load = Load(kind: Kind, specifier: string, file: Option<string>, got: Option<Module>)

  datatype Done = Done(loader: Loader, loads: seq<Load>)

  function Stored(s: Loader, key: string, m: Module): Loader {
    s.(registry := s.registry[key := m])
  }

  predicate BySpecifier(s: Loader, kind: Kind, specifier: string) {
    kind == JavaScript && !HasPrefix(specifier) && specifier in s.registry
  }

  /** The module of the file at `path`: the cached one, or else a newly compiled one. */
  function Resolved(s: Loader, kind: Kind, path: string, compiled: Option<nat>): (Loader, Option<Module>) {
    var key := FileKey(kind, path);
    if kind == JavaScript && HasJsonExtension(path) then (s, None)
    else if key in s.registry then (s, Some(s.registry[key]))
    else match compiled
      case None => (s, None)
      case Some(obj) => (Stored(s, key, Module(obj, kind)), Some(Module(obj, kind)))
  }

  function Exec(s: Loader, op: Op): Done
    decreases op, 1
  {
    match op
    case Import(kind, specifier, path, compiled) =>
      if BySpecifier(s, kind, specifier) then Done(s, [Load(kind, specifier, None, Some(s.registry[specifier]))])
      else (match path
        case None => Done(s, [Load(kind, specifier, None, None)])
        case Some(file) =>
          var r := Resolved(s, kind, file, compiled);
          Done(r.0, [Load(kind, specifier, Some(file), r.1)]))
    case Native(name, obj, during, populated) =>
      var d := ExecAll(Stored(s, name, Module(obj, JavaScript)), during);
      if populated then d else d.(loader := d.loader.(registry := d.loader.registry - {name}))
    case Entry(path, obj) =>
      Done(Stored(s, path, Module(obj, JavaScript)).(entry := Some(path)), [])
    case NamedEntry(name, obj) =>
      Done(Stored(s, name, Module(obj, JavaScript)).(entry := Some(name)), [])
    case Clear => Done(s.(registry := map[]), [])
  }

  function ExecAll(s: Loader, ops: seq<Op>): Done
    decreases ops, 0
  {
    if ops == [] then Done(s, [])
    else
      var first := Exec(s, ops[0]);
      var rest := ExecAll(first.loader, ops[1..]);
      Done(rest.loader, first.loads + rest.loads)
  }

  // ---------------------------------------------------------------------------
  // The loader
  // ---------------------------------------------------------------------------

  class ModuleLoader {
    var registry: map<string, Module>
    var entry: Option<string>

    ghost function State(): Loader
      reads this
    {
      Loader(registry, entry)
    }

    constructor ()
      ensures State() == Loader(map[], None)
    {
      registry, entry := map[], None;
    }

    method ResolveFileModule(kind: Kind, path: string, compiled: Option<nat>) returns (m: Option<Module>)
      modifies this
      ensures (State(), m) == Resolved(old(State()), kind, path, compiled)
    {
      if kind == JavaScript && HasJsonExtension(path) {
        return None;
      }
      var key := FileKey(kind, path);
      if key in registry {
        return Some(registry[key]);
      }
      if compiled.None? {
        return None;
      }
      registry := registry[key := Module(compiled.value, kind)];
      return Some(Module(compiled.value, kind));
    }

    method Run(op: Op) returns (loads: seq<Load>)
      modifies this
      ensures Done(State(), loads) == Exec(old(State()), op)
      decreases op, 1
    {
      match op {
        case Import(kind, specifier, path, compiled) =>
          if kind == JavaScript && !HasPrefix(specifier) && specifier in registry {
            return [Load(kind, specifier, None, Some(registry[specifier]))];
          }
          if path.None? {
            return [Load(kind, specifier, None, None)];
          }
          var m := ResolveFileModule(kind, path.value, compiled);
          return [Load(kind, specifier, path, m)];
        case Native(name, obj, during, populated) =>
          registry := registry[name := Module(obj, JavaScript)];
          loads := RunAll(during);
          if !populated {
            registry := registry - {name};
          }
        case Entry(path, obj) =>
          registry, entry := registry[path := Module(obj, JavaScript)], Some(path);
          return [];
        case NamedEntry(name, obj) =>
          registry, entry := registry[name := Module(obj, JavaScript)], Some(name);
          return [];
        case Clear =>
          registry := map[];
          return [];
      }
    }

    method RunAll(ops: seq<Op>) returns (loads: seq<Load>)
      modifies this
      ensures Done(State(), loads) == ExecAll(old(State()), ops)
      decreases ops, 0
    {
      if ops == [] {
        return [];
      }
      var first := Run(ops[0]);
      var rest := RunAll(ops[1..]);
      return first + rest;
    }
  }

  // ---------------------------------------------------------------------------
  // Kinds never mix
  // ---------------------------------------------------------------------------

  /** The name is the key of a file's JSON module. */
  predicate Shadows(name: string) {
    HasPrefix(name) && IsAbsolutePath(name[|JSON_PREFIX|..])
  }

  /** JSON modules are where no JavaScript import looks, and nothing else is where JSON imports look. */
  ghost predicate Apart(s: Loader) {
    forall key :: key in s.registry ==>
      && (s.registry[key].kind == Json ==> HasPrefix(key))
      && (Shadows(key) ==> s.registry[key].kind == Json)
  }

  /** Canonical paths are absolute, and no name is the key of a file's JSON module. */
  ghost predicate WellNamed(op: Op) {
    match op
    case Import(_, _, path, _) => path.Some? ==> IsAbsolutePath(path.value)
    case Native(name, _, during, _) => !Shadows(name) && forall o :: o in during ==> WellNamed(o)
    case Entry(path, _) => IsAbsolutePath(path)
    case NamedEntry(name, _) => !Shadows(name)
    case Clear => true
  }

  ghost predicate AllWellNamed(ops: seq<Op>) {
    forall o :: o in ops ==> WellNamed(o)
  }

  ghost predicate KindsMatch(loads: seq<Load>) {
    forall l :: l in loads && l.got.Some? ==> l.got.value.kind == l.kind
  }

  lemma {:induction false} FileKeysTellKinds(kind: Kind, path: string)
    requires IsAbsolutePath(path)
    ensures HasPrefix(FileKey(kind, path)) <==> kind == Json
    ensures Shadows(FileKey(kind, path)) <==> kind == Json
  {
    assert (JSON_PREFIX + path)[..5] == JSON_PREFIX && (JSON_PREFIX + path)[5..] == path;
  }

  /** A JavaScript import never gets a module compiled as JSON, nor the reverse. */
  lemma {:induction false} KindsNeverMix(s: Loader, op: Op)
    requires Apart(s) && WellNamed(op)
    ensures Apart(Exec(s, op).loader) && KindsMatch(Exec(s, op).loads)
    decreases op, 1
  {
    match op
    case Import(kind, _, path, _) =>
      if path.Some? {
        FileKeysTellKinds(kind, path.value);
      }
    case Native(name, obj, during, _) =>
      KindsNeverMixInAll(Stored(s, name, Module(obj, JavaScript)), during);
    case Entry(path, _) => FileKeysTellKinds(JavaScript, path);
    case NamedEntry(_, _) =>
    case Clear =>
  }

  lemma {:induction false} KindsNeverMixInAll(s: Loader, ops: seq<Op>)
    requires Apart(s) && AllWellNamed(ops)
    ensures Apart(ExecAll(s, ops).loader) && KindsMatch(ExecAll(s, ops).loads)
    decreases ops, 0
  {
    if ops == [] {
    } else {
      KindsNeverMix(s, ops[0]);
      KindsNeverMixInAll(Exec(s, ops[0]).loader, ops[1..]);
    }
  }

  /** A JSON import of the path after the prefix gets whatever module was stored under the name. */
  lemma {:induction false} ShadowingMixes(s: Loader, name: string, obj: nat)
    requires Shadows(name)
    ensures
      var getJson := Import(Json, "", Some(name[|JSON_PREFIX|..]), None);
      && AllWellNamed([getJson])
      && !KindsMatch(ExecAll(Stored(s, name, Module(obj, JavaScript)), [getJson]).loads)
  {
    var path := name[|JSON_PREFIX|..];
    var t := Stored(s, name, Module(obj, JavaScript));
    var getJson := Import(Json, "", Some(path), None);
    assert name == JSON_PREFIX + path;
    OnlyOp(t, getJson);
    assert Exec(t, getJson).loads == [Load(Json, "", Some(path), Some(Module(obj, JavaScript)))];
    assert Exec(t, getJson).loads[0] in Exec(t, getJson).loads;
  }

  ghost predicate StaysApart(s: Loader) {
    forall ops :: AllWellNamed(ops) ==> KindsMatch(ExecAll(s, ops).loads)
  }

  /** Storing a JavaScript module under a name keeps what later imports get apart, whatever happens,
      exactly when the name is not the key of a file's JSON module. */
  lemma {:induction false} NamesDecideKinds(s: Loader, name: string, obj: nat)
    requires Apart(s)
    ensures StaysApart(Stored(s, name, Module(obj, JavaScript))) <==> !Shadows(name)
  {
    var t := Stored(s, name, Module(obj, JavaScript));
    if Shadows(name) {
      ShadowingMixes(s, name, obj);
    } else {
      forall ops | AllWellNamed(ops)
        ensures KindsMatch(ExecAll(t, ops).loads)
      {
        KindsNeverMixInAll(t, ops);
      }
    }
  }

  // ---------------------------------------------------------------------------
  // A file is one module
  // ---------------------------------------------------------------------------

  /** The operation, or what runs within it, may rebind or remove `key`. */
  ghost predicate Touches(op: Op, key: string) {
    match op
    case Import(_, _, _, _) => false
    case Native(name, _, during, _) => name == key || exists o :: o in during && Touches(o, key)
    case Entry(path, _) => path == key
    case NamedEntry(name, _) => name == key
    case Clear => true
  }

  ghost predicate Importable(kind: Kind, path: string) {
    kind == Json || !HasJsonExtension(path)
  }

  ghost predicate AllGet(loads: seq<Load>, kind: Kind, path: string, m: Module) {
    forall l :: l in loads && l.kind == kind && l.file == Some(path) ==> l.got == Some(m)
  }

  /** Once a file's module is in the registry, every import resolved to that file as that kind gets
      it, through any operations that do not touch its key. */
  lemma {:induction false} FileIsOneModule(s: Loader, op: Op, kind: Kind, path: string, m: Module)
    requires FileKey(kind, path) in s.registry && s.registry[FileKey(kind, path)] == m
    requires Importable(kind, path) && !Touches(op, FileKey(kind, path))
    ensures var d := Exec(s, op);
      && FileKey(kind, path) in d.loader.registry && d.loader.registry[FileKey(kind, path)] == m
      && AllGet(d.loads, kind, path, m)
    decreases op, 1
  {
    match op
    case Native(name, obj, during, _) =>
      FileIsOneModuleInAll(Stored(s, name, Module(obj, JavaScript)), during, kind, path, m);
    case _ =>
  }

  lemma {:induction false} FileIsOneModuleInAll(s: Loader, ops: seq<Op>, kind: Kind, path: string, m: Module)
    requires FileKey(kind, path) in s.registry && s.registry[FileKey(kind, path)] == m
    requires Importable(kind, path) && forall o :: o in ops ==> !Touches(o, FileKey(kind, path))
    ensures var d := ExecAll(s, ops);
      && FileKey(kind, path) in d.loader.registry && d.loader.registry[FileKey(kind, path)] == m
      && AllGet(d.loads, kind, path, m)
    decreases ops, 0
  {
    if ops == [] {
    } else {
      FileIsOneModule(s, ops[0], kind, path, m);
      FileIsOneModuleInAll(Exec(s, ops[0]).loader, ops[1..], kind, path, m);
    }
  }

  /** The operation, or what runs within it, makes or compiles an object with this identity. */
  ghost predicate Makes(op: Op, obj: nat) {
    match op
    case Import(_, _, _, compiled) => compiled == Some(obj)
    case Native(_, o, during, _) => o == obj || exists d :: d in during && Makes(d, obj)
    case Entry(_, o) => o == obj
    case NamedEntry(_, o) => o == obj
    case Clear => false
  }

  /** `key` is not bound to the object `obj`. */
  ghost predicate Lost(s: Loader, key: string, obj: nat) {
    key in s.registry ==> s.registry[key].obj != obj
  }

  lemma {:induction false} StaysLost(s: Loader, op: Op, key: string, obj: nat)
    requires Lost(s, key, obj) && !Makes(op, obj)
    ensures Lost(Exec(s, op).loader, key, obj)
    decreases op, 1
  {
    match op
    case Native(name, o, during, _) =>
      StaysLostInAll(Stored(s, name, Module(o, JavaScript)), during, key, obj);
    case _ =>
  }

  lemma {:induction false} StaysLostInAll(s: Loader, ops: seq<Op>, key: string, obj: nat)
    requires Lost(s, key, obj) && forall o :: o in ops ==> !Makes(o, obj)
    ensures Lost(ExecAll(s, ops).loader, key, obj)
    decreases ops, 0
  {
    if ops == [] {
    } else {
      StaysLost(s, ops[0], key, obj);
      StaysLostInAll(Exec(s, ops[0]).loader, ops[1..], key, obj);
    }
  }

  lemma {:induction false} TouchingLoses(s: Loader, op: Op, key: string, obj: nat)
    requires Touches(op, key) && !Makes(op, obj)
    ensures Lost(Exec(s, op).loader, key, obj)
    decreases op, 1
  {
    match op
    case Native(name, o, during, _) =>
      var t := Stored(s, name, Module(o, JavaScript));
      if name == key {
        StaysLostInAll(t, during, key, obj);
      } else {
        TouchingLosesInAll(t, during, key, obj);
      }
    case _ =>
  }

  lemma {:induction false} TouchingLosesInAll(s: Loader, ops: seq<Op>, key: string, obj: nat)
    requires exists o :: o in ops && Touches(o, key)
    requires forall o :: o in ops ==> !Makes(o, obj)
    ensures Lost(ExecAll(s, ops).loader, key, obj)
    decreases ops, 0
  {
    var next := Exec(s, ops[0]).loader;
    if Touches(ops[0], key) {
      TouchingLoses(s, ops[0], key, obj);
      StaysLostInAll(next, ops[1..], key, obj);
    } else {
      TouchingLosesInAll(next, ops[1..], key, obj);
    }
  }

  /** A file keeps its module through a run of operations exactly when none of them, nor anything that
      runs within one, names the file's key or clears the registry. Objects made meanwhile are others. */
  lemma {:induction false} KeepsItsModuleExactlyIf(s: Loader, ops: seq<Op>, kind: Kind, path: string, m: Module)
    requires FileKey(kind, path) in s.registry && s.registry[FileKey(kind, path)] == m
    requires Importable(kind, path) && forall o :: o in ops ==> !Makes(o, m.obj)
    ensures var key, t := FileKey(kind, path), ExecAll(s, ops).loader;
      (key in t.registry && t.registry[key] == m) <==> forall o :: o in ops ==> !Touches(o, key)
  {
    if forall o :: o in ops ==> !Touches(o, FileKey(kind, path)) {
      FileIsOneModuleInAll(s, ops, kind, path, m);
    } else {
      TouchingLosesInAll(s, ops, FileKey(kind, path), m.obj);
    }
  }

  /** The first import to compile a file decides its module. All imports of the file up to a later one
      get that module if nothing in between touches its key, and the later one gets it exactly then. */
  lemma {:induction false} FirstCompiledStays(
      s: Loader, kind: Kind, path: string, obj: nat, first: string, ops: seq<Op>,
      later: string, compiled: Option<nat>)
    requires FileKey(kind, path) !in s.registry && Importable(kind, path) && !BySpecifier(s, kind, first)
    requires (forall o :: o in ops ==> !Makes(o, obj)) && compiled != Some(obj)
    ensures
      var m, key := Module(obj, kind), FileKey(kind, path);
      var before := Exec(s, Import(kind, first, Some(path), Some(obj)));
      var after := ExecAll(before.loader, ops);
      var untouched := forall o :: o in ops ==> !Touches(o, key);
      && before.loads == [Load(kind, first, Some(path), Some(m))]
      && (untouched ==> AllGet(after.loads, kind, path, m))
      && (!BySpecifier(after.loader, kind, later) ==>
            var last := Exec(after.loader, Import(kind, later, Some(path), compiled));
            last.loads == [Load(kind, later, Some(path), Some(m))] <==> untouched)
  {
    var m, key := Module(obj, kind), FileKey(kind, path);
    var before := Exec(s, Import(kind, first, Some(path), Some(obj)));
    KeepsItsModuleExactlyIf(before.loader, ops, kind, path, m);
    if forall o :: o in ops ==> !Touches(o, key) {
      FileIsOneModuleInAll(before.loader, ops, kind, path, m);
    } else {
      TouchingLosesInAll(before.loader, ops, key, obj);
    }
  }

  /** A native module named like a file's path takes the file's place, and takes it down with it when
      its registration fails: the file is compiled again. */
  lemma {:induction false} NativeMayReplaceAFile(path: string, specifier: string)
    requires !HasJsonExtension(path) && specifier != path
    ensures ExecAll(Loader(map[], None),
              [Import(JavaScript, specifier, Some(path), Some(1)),
               Native(path, 2, [Import(JavaScript, specifier, Some(path), Some(3))], false),
               Import(JavaScript, specifier, Some(path), Some(4))]).loads
      == [Load(JavaScript, specifier, Some(path), Some(Module(1, JavaScript))),
          Load(JavaScript, specifier, Some(path), Some(Module(2, JavaScript))),
          Load(JavaScript, specifier, Some(path), Some(Module(4, JavaScript)))]
  {
    var import1 := Import(JavaScript, specifier, Some(path), Some(1));
    var during := Import(JavaScript, specifier, Some(path), Some(3));
    var native := Native(path, 2, [during], false);
    var import4 := Import(JavaScript, specifier, Some(path), Some(4));
    var s0 := Loader(map[], None);
    var s1 := Loader(map[path := Module(1, JavaScript)], None);
    var s2 := Loader(map[path := Module(2, JavaScript)], None);
    var loads2 := [Load(JavaScript, specifier, Some(path), Some(Module(2, JavaScript)))];
    var loads4 := [Load(JavaScript, specifier, Some(path), Some(Module(4, JavaScript)))];
    assert Exec(s0, import1).loader == s1 && Stored(s1, path, Module(2, JavaScript)) == s2;
    OnlyOp(s2, during);
    assert s2.registry - {path} == map[];
    assert Exec(s1, native) == Done(s0, loads2);
    OnlyOp(s0, import4);
    assert [native, import4][1..] == [import4];
    assert ExecAll(s1, [native, import4]).loads == loads2 + loads4;
    assert [import1, native, import4][1..] == [native, import4];
  }

  lemma {:induction false} OnlyOp(s: Loader, op: Op)
    ensures ExecAll(s, [op]) == Exec(s, op)
  {
    assert [op][1..] == [] && Exec(s, op).loads + [] == Exec(s, op).loads;
  }

  // ---------------------------------------------------------------------------
  // A name finds its module
  // ---------------------------------------------------------------------------

  /** Every JavaScript import of `name` got `m`, and none went on to a file. */
  ghost predicate AllFind(loads: seq<Load>, name: string, m: Module) {
    forall l :: l in loads && l.kind == JavaScript && l.specifier == name ==> l.file == None && l.got == Some(m)
  }

  /** While a name is bound to a module and nothing touches it, every JavaScript import of it gets the
      module, also those within registrations. */
  lemma {:induction false} NameIsFound(s: Loader, op: Op, name: string, m: Module)
    requires !(JSON_PREFIX <= name) && name in s.registry && s.registry[name] == m && !Touches(op, name)
    ensures var d := Exec(s, op);
      && name in d.loader.registry && d.loader.registry[name] == m
      && AllFind(d.loads, name, m)
    decreases op, 1
  {
    match op
    case Native(other, obj, during, _) =>
      NameIsFoundInAll(Stored(s, other, Module(obj, JavaScript)), during, name, m);
    case _ =>
  }

  lemma {:induction false} NameIsFoundInAll(s: Loader, ops: seq<Op>, name: string, m: Module)
    requires !(JSON_PREFIX <= name) && name in s.registry && s.registry[name] == m
    requires forall o :: o in ops ==> !Touches(o, name)
    ensures var d := ExecAll(s, ops);
      && name in d.loader.registry && d.loader.registry[name] == m
      && AllFind(d.loads, name, m)
    decreases ops, 0
  {
    if ops == [] {
    } else {
      NameIsFound(s, ops[0], name, m);
      NameIsFoundInAll(Exec(s, ops[0]).loader, ops[1..], name, m);
    }
  }

  /** An import makes one load, of its own kind and specifier. */
  lemma {:induction false} ImportLoadsOnce(
      s: Loader, kind: Kind, specifier: string, path: Option<string>, compiled: Option<nat>)
    ensures var loads := Exec(s, Import(kind, specifier, path, compiled)).loads;
      |loads| == 1 && loads[0].kind == kind && loads[0].specifier == specifier
  {
  }

  /** An import that no name answers and that resolves to no file gets nothing. */
  lemma {:induction false} UnresolvedGetsNothing(s: Loader, kind: Kind, specifier: string, compiled: Option<nat>)
    requires kind == JavaScript ==> JSON_PREFIX <= specifier || specifier !in s.registry
    ensures var d := Exec(s, Import(kind, specifier, None, compiled));
      d.loader == s && |d.loads| == 1 && d.loads[0].got == None
  {
  }

  /** How many imports an operation makes, itself or within. */
  function Imports(op: Op): nat
    decreases op, 1
  {
    match op
    case Import(_, _, _, _) => 1
    case Native(_, _, during, _) => AllImports(during)
    case _ => 0
  }

  function AllImports(ops: seq<Op>): nat
    decreases ops, 0
  {
    if ops == [] then 0 else Imports(ops[0]) + AllImports(ops[1..])
  }

  /** Every import is answered. */
  lemma {:induction false} EveryImportLoads(s: Loader, op: Op)
    ensures |Exec(s, op).loads| == Imports(op)
    decreases op, 1
  {
    match op
    case Native(name, obj, during, _) => AllImportsLoad(Stored(s, name, Module(obj, JavaScript)), during);
    case _ =>
  }

  lemma {:induction false} AllImportsLoad(s: Loader, ops: seq<Op>)
    ensures |ExecAll(s, ops).loads| == AllImports(ops)
    decreases ops, 0
  {
    if ops == [] {
    } else {
      EveryImportLoads(s, ops[0]);
      AllImportsLoad(Exec(s, ops[0]).loader, ops[1..]);
    }
  }

  /** A native or synthetic module is what its name gets: in all imports while it is being registered,
      and afterwards, whatever file the name would resolve to, exactly if the registration succeeded.
      After a failed one the import goes on to that file, if any. */
  lemma {:induction false} NativeIsFound(
      s: Loader, name: string, obj: nat, during: seq<Op>, populated: bool, ops: seq<Op>,
      path: Option<string>, compiled: Option<nat>)
    requires !(JSON_PREFIX <= name)
    requires forall o :: o in during + ops ==> !Touches(o, name)
    ensures
      var m := Module(obj, JavaScript);
      var registered := Exec(s, Native(name, obj, during, populated));
      var after := ExecAll(registered.loader, ops);
      && AllFind(registered.loads, name, m)
      && (populated ==>
            && AllFind(after.loads, name, m)
            && Exec(after.loader, Import(JavaScript, name, path, compiled)).loads
                == [Load(JavaScript, name, None, Some(m))])
      && (!populated ==>
            && name !in registered.loader.registry
            && Exec(registered.loader, Import(JavaScript, name, path, compiled)).loads[0].file == path)
  {
    var m := Module(obj, JavaScript);
    var registered := Exec(s, Native(name, obj, during, populated));
    assert forall o :: o in during ==> o in during + ops;
    assert forall o :: o in ops ==> o in during + ops;
    NameIsFoundInAll(Stored(s, name, m), during, name, m);
    ImportLoadsOnce(registered.loader, JavaScript, name, path, compiled);
    if populated {
      var after, last := ExecAll(registered.loader, ops), Import(JavaScript, name, path, compiled);
      NameIsFoundInAll(registered.loader, ops, name, m);
      NameIsFound(after.loader, last, name, m);
      ImportLoadsOnce(after.loader, JavaScript, name, path, compiled);
      assert Exec(after.loader, last).loads[0] in Exec(after.loader, last).loads;
    }
  }

  /** The module under the key recorded last as the entry. */
  function EntryModule(s: Loader): Option<Module> {
    if s.entry.Some? && s.entry.value in s.registry then Some(s.registry[s.entry.value]) else None
  }

  /** The operation, or what runs within it, records an entry. */
  ghost predicate RecordsEntry(op: Op) {
    match op
    case Native(_, _, during, _) => exists o :: o in during && RecordsEntry(o)
    case Entry(_, _) => true
    case NamedEntry(_, _) => true
    case _ => false
  }

  lemma {:induction false} EntryStays(s: Loader, op: Op)
    requires !RecordsEntry(op)
    ensures Exec(s, op).loader.entry == s.entry
    decreases op, 1
  {
    match op
    case Native(name, obj, during, _) => EntryStaysInAll(Stored(s, name, Module(obj, JavaScript)), during);
    case _ =>
  }

  lemma {:induction false} EntryStaysInAll(s: Loader, ops: seq<Op>)
    requires forall o :: o in ops ==> !RecordsEntry(o)
    ensures ExecAll(s, ops).loader.entry == s.entry
    decreases ops, 0
  {
    if ops == [] {
    } else {
      EntryStays(s, ops[0]);
      EntryStaysInAll(Exec(s, ops[0]).loader, ops[1..]);
    }
  }

  /** An entry module, of a file or under a name, is what a JavaScript import of its key gets, and stays
      the entry module until another is recorded or its key is touched. */
  lemma {:induction false} EntryIsFound(
      s: Loader, entry: Op, ops: seq<Op>, path: Option<string>, compiled: Option<nat>)
    requires entry.Entry? || entry.NamedEntry?
    requires
      var key := if entry.Entry? then entry.file else entry.name;
      !(JSON_PREFIX <= key) && forall o :: o in ops ==> !Touches(o, key)
    ensures
      var key := if entry.Entry? then entry.file else entry.name;
      var m, after := Module(entry.obj, JavaScript), ExecAll(Exec(s, entry).loader, ops);
      && AllFind(after.loads, key, m)
      && Exec(after.loader, Import(JavaScript, key, path, compiled)).loads == [Load(JavaScript, key, None, Some(m))]
      && ((forall o :: o in ops ==> !RecordsEntry(o)) ==> EntryModule(after.loader) == Some(m))
  {
    var key := if entry.Entry? then entry.file else entry.name;
    var m, stored := Module(entry.obj, JavaScript), Exec(s, entry).loader;
    var after, last := ExecAll(stored, ops), Import(JavaScript, key, path, compiled);
    NameIsFoundInAll(stored, ops, key, m);
    NameIsFound(after.loader, last, key, m);
    ImportLoadsOnce(after.loader, JavaScript, key, path, compiled);
    assert Exec(after.loader, last).loads[0] in Exec(after.loader, last).loads;
    if forall o :: o in ops ==> !RecordsEntry(o) {
      EntryStaysInAll(stored, ops);
    }
  }

  // ---------------------------------------------------------------------------
  // JSON files are not scripts
  // ---------------------------------------------------------------------------

  /** A file named by something and `.json`, in any case. */
  ghost predicate IsJsonFile(path: string) {
    exists dir, stem, ext :: path == dir + stem + ext && IsJsonName(stem, ext)
  }

  ghost predicate IsJsonName(stem: string, ext: string) {
    && stem != "" && '/' !in stem
    && |ext| == 5 && ext[0] == '.' && ext[1] in "jJ" && ext[2] in "sS" && ext[3] in "oO" && ext[4] in "nN"
  }

  lemma {:induction false} LowerJson(ext: string)
    requires |ext| == 5
    ensures Lower(ext) == ".json"
      <==> ext[0] == '.' && ext[1] in "jJ" && ext[2] in "sS" && ext[3] in "oO" && ext[4] in "nN"
  {
    var l, json := Lower(ext), ".json";
    assert l == json <==> l[0] == json[0] && l[1] == json[1] && l[2] == json[2] && l[3] == json[3] && l[4] == json[4];
  }

  lemma {:induction false} JsonByExtension(path: string)
    ensures HasJsonExtension(path) <==> IsJsonFile(path)
  {
    if |path| > 5 {
      var n := |path|;
      LowerJson(path[n - 5..]);
      if HasJsonExtension(path) {
        var dir, stem, ext := path[..n - 6], path[n - 6..n - 5], path[n - 5..];
        assert path == dir + stem + ext && stem == [path[n - 6]];
        assert IsJsonName(stem, ext);
      }
    }
    if IsJsonFile(path) {
      var dir, stem, ext :| path == dir + stem + ext && IsJsonName(stem, ext);
      var n := |path|;
      assert path[n - 5..] == ext && path[n - 6] == stem[|stem| - 1];
      LowerJson(ext);
    }
  }

  /** A JavaScript import that no name answers and that resolves to a file gets nothing exactly if that
      is a JSON file, or it is not registered and does not compile. A JSON import is not refused. */
  lemma {:induction false} RefusedExactlyIf(
      s: Loader, kind: Kind, specifier: string, file: string, compiled: Option<nat>)
    requires kind == JavaScript ==> JSON_PREFIX <= specifier || specifier !in s.registry
    ensures
      var d := Exec(s, Import(kind, specifier, Some(file), compiled));
      var known := FileKey(kind, file) in s.registry;
      && |d.loads| == 1
      && (d.loads[0].got.None? <==> (kind == JavaScript && IsJsonFile(file)) || (!known && compiled.None?))
      && (d.loads[0].got.None? || known ==> d.loader == s)
  {
    JsonByExtension(file);
  }
}
