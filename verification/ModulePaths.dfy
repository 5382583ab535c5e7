/** The lexical path normaliser that keys the module cache where the filesystem cannot. */
module ModulePaths {

  /** A path by its components, as a Unix path splits into them. */
  datatype Component = RootDir | CurDir | ParentDir | Normal(name: string)

  /** The root can only come first. */
  predicate IsPath(path: seq<Component>) {
    forall i :: 0 < i < |path| ==> path[i] != RootDir
  }

  predicate IsAbsolute(path: seq<Component>) {
    path != [] && path[0] == RootDir
  }

  /** The buffer after one more component. */
  function Pushed(out: seq<Component>, c: Component): seq<Component> {
    match c
    case CurDir => out
    case ParentDir =>
      if out != [] && out[|out| - 1].Normal? then out[..|out| - 1] else out + [ParentDir]
    case RootDir => [RootDir]
    case Normal(_) => out + [c]
  }

  function Normalized(path: seq<Component>): seq<Component> {
    if path == [] then [] else Pushed(Normalized(path[..|path| - 1]), path[|path| - 1])
  }

  lemma {:induction false} NormalizedStep(path: seq<Component>, i: nat)
    requires i < |path|
    ensures Normalized(path[..i + 1]) == Pushed(Normalized(path[..i]), path[i])
  {
    assert path[..i + 1][..i] == path[..i];
  }

  method LexicallyNormalize(path: seq<Component>) returns (out: seq<Component>)
    ensures out == Normalized(path)
  {
    out := [];
    for i := 0 to |path|
      invariant out == Normalized(path[..i])
    {
      NormalizedStep(path, i);
      match path[i] {
        case CurDir =>
        case ParentDir =>
          if out == [] || !out[|out| - 1].Normal? {
            out := out + [ParentDir];
          } else {
            out := out[..|out| - 1];
          }
        case RootDir => out := [RootDir];
        case Normal(_) => out := out + [path[i]];
      }
    }
    assert path[..|path|] == path;
  }

  // ---------------------------------------------------------------------------
  // What a path denotes
  // ---------------------------------------------------------------------------

  /** A directory by the names leading to it, in a tree without symlinks. The root is its own parent. */
  type Location = seq<string>

  function Moved(at: Location, c: Component): Location {
    match c
    case RootDir => []
    case CurDir => at
    case ParentDir => if at == [] then [] else at[..|at| - 1]
    case Normal(name) => at + [name]
  }

  function Locate(path: seq<Component>, start: Location): Location {
    if path == [] then start else Moved(Locate(path[..|path| - 1], start), path[|path| - 1])
  }

  /** Normalising changes nothing about where a path leads, from anywhere. */
  lemma {:induction false} NormalizedDenotesTheSame(path: seq<Component>, start: Location)
    ensures Locate(Normalized(path), start) == Locate(path, start)
  {
    if path == [] {
    } else {
      var front, c := path[..|path| - 1], path[|path| - 1];
      NormalizedDenotesTheSame(front, start);
      var out := Normalized(front);
      match c
      case CurDir =>
      case ParentDir =>
        if out != [] && out[|out| - 1].Normal? {
          var before := Locate(out[..|out| - 1], start);
          assert Locate(out, start) == before + [out[|out| - 1].name];
          assert (before + [out[|out| - 1].name])[..|before|] == before;
        } else {
          assert (out + [ParentDir])[..|out|] == out;
        }
      case RootDir =>
        assert [RootDir][..0] == [];
      case Normal(_) =>
        assert (out + [c])[..|out|] == out;
    }
  }

  // ---------------------------------------------------------------------------
  // The normal form
  // ---------------------------------------------------------------------------

  /** An optional root, then only `..`, then only names. */
  ghost predicate NormalForm(path: seq<Component>) {
    && IsPath(path)
    && (forall i :: 0 <= i < |path| ==> path[i] != CurDir)
    && (forall i, j :: 0 <= i < j < |path| && path[i].Normal? ==> path[j].Normal?)
  }

  lemma {:induction false} PushingKeepsForm(out: seq<Component>, c: Component)
    requires NormalForm(out) && (c == RootDir ==> out == [])
    ensures NormalForm(Pushed(out, c))
    ensures IsAbsolute(Pushed(out, c)) <==> IsAbsolute(out) || c == RootDir
  {
  }

  lemma {:induction false} NormalizedIsNormal(path: seq<Component>)
    requires IsPath(path)
    ensures NormalForm(Normalized(path))
    ensures IsAbsolute(Normalized(path)) <==> IsAbsolute(path)
  {
    if path == [] {
    } else {
      var front, c := path[..|path| - 1], path[|path| - 1];
      NormalizedIsNormal(front);
      assert front == [] ==> Normalized(front) == [];
      PushingKeepsForm(Normalized(front), c);
    }
  }

  lemma {:induction false} NormalFormIsFixed(path: seq<Component>)
    requires NormalForm(path)
    ensures Normalized(path) == path
  {
    if path == [] {
    } else {
      NormalFormIsFixed(path[..|path| - 1]);
      assert path == path[..|path| - 1] + [path[|path| - 1]];
    }
  }

  lemma {:induction false} NormalizeIsIdempotent(path: seq<Component>)
    requires IsPath(path)
    ensures Normalized(Normalized(path)) == Normalized(path)
  {
    NormalizedIsNormal(path);
    NormalFormIsFixed(Normalized(path));
  }

  // ---------------------------------------------------------------------------
  // Equal results and equal places
  // ---------------------------------------------------------------------------

  function Ups(path: seq<Component>): nat {
    if path == [] then 0 else Ups(path[..|path| - 1]) + if path[|path| - 1] == ParentDir then 1 else 0
  }

  function Names(path: seq<Component>): seq<string> {
    if path == [] then []
    else Names(path[..|path| - 1]) + if path[|path| - 1].Normal? then [path[|path| - 1].name] else []
  }

  lemma {:induction false} NoNames(path: seq<Component>)
    requires forall i :: 0 <= i < |path| ==> !path[i].Normal?
    ensures Names(path) == []
  {
    if path == [] {
    } else {
      NoNames(path[..|path| - 1]);
    }
  }

  /** The front of a normal form is one, and `..` only follows what has no names. */
  lemma {:induction false} FrontOfForm(path: seq<Component>)
    requires NormalForm(path) && path != []
    ensures
      var front, c := path[..|path| - 1], path[|path| - 1];
      && NormalForm(front) && path == front + [c]
      && (IsAbsolute(front) <==> IsAbsolute(path) && front != [])
      && (c == ParentDir ==> Names(front) == [])
      && (c.Normal? || c == ParentDir || (c == RootDir && front == []))
  {
    var front, c := path[..|path| - 1], path[|path| - 1];
    if c == ParentDir {
      assert forall i :: 0 <= i < |front| ==> !front[i].Normal?;
      NoNames(front);
    }
  }

  lemma {:induction false} RelativeStep(start: Location, ups: nat, names: seq<string>, c: Component)
    requires ups <= |start| && (c.Normal? || (c == ParentDir && names == [] && ups < |start|))
    ensures Moved(start[..|start| - ups] + names, c)
      == if c.Normal? then start[..|start| - ups] + (names + [c.name]) else start[..|start| - (ups + 1)]
  {
    var at := start[..|start| - ups];
    if c.Normal? {
      assert at + names + [c.name] == at + (names + [c.name]);
    } else {
      assert at + names == at && at[..|at| - 1] == start[..|start| - (ups + 1)];
    }
  }

  /** A relative normal form goes up, then down. */
  lemma {:induction false} LocateRelative(path: seq<Component>, start: Location)
    requires NormalForm(path) && !IsAbsolute(path) && Ups(path) <= |start|
    ensures Locate(path, start) == start[..|start| - Ups(path)] + Names(path)
  {
    if path == [] {
    } else {
      var front, c := path[..|path| - 1], path[|path| - 1];
      FrontOfForm(path);
      LocateRelative(front, start);
      RelativeStep(start, Ups(front), Names(front), c);
    }
  }

  /** An absolute normal form leads to its names, whatever `..` it starts with. */
  lemma {:induction false} LocateAbsolute(path: seq<Component>, start: Location)
    requires NormalForm(path) && IsAbsolute(path)
    ensures Locate(path, start) == Names(path)
  {
    var front, c := path[..|path| - 1], path[|path| - 1];
    if |path| > 1 {
      FrontOfForm(path);
      LocateAbsolute(front, start);
    } else {
      assert front == [] && Names(front) == [];
    }
  }

  function UpThenDown(ups: nat, names: seq<string>): seq<Component> {
    seq(ups, _ => ParentDir) + seq(|names|, i requires 0 <= i < |names| => Normal(names[i]))
  }

  lemma {:induction false} DownOneMore(ups: nat, names: seq<string>, name: string)
    ensures UpThenDown(ups, names + [name]) == UpThenDown(ups, names) + [Normal(name)]
  {
  }

  lemma {:induction false} UpOneMore(ups: nat)
    ensures UpThenDown(ups + 1, []) == UpThenDown(ups, []) + [ParentDir]
  {
  }

  /** A relative normal form is determined by how far it goes up and the names after that. */
  lemma {:induction false} FormIsUpsAndNames(path: seq<Component>)
    requires NormalForm(path) && !IsAbsolute(path)
    ensures path == UpThenDown(Ups(path), Names(path))
  {
    if path == [] {
    } else {
      var front, c := path[..|path| - 1], path[|path| - 1];
      FrontOfForm(path);
      FormIsUpsAndNames(front);
      if c == ParentDir {
        UpOneMore(Ups(front));
      } else {
        DownOneMore(Ups(front), Names(front), c.name);
      }
    }
  }

  /** A name longer than every one of `names`. */
  function FreshName(names: seq<string>): (unused: string)
    ensures unused !in names
    ensures forall n :: n in names ==> |n| < |unused|
  {
    if names == [] then "x"
    else
      var rest := FreshName(names[1..]);
      assert forall n :: n in names ==> n == names[0] || n in names[1..];
      rest + names[0]
  }

  /** A directory `depth` deep, of names not among `names`. */
  function DeepDirectory(names: seq<string>, depth: nat): (s: Location)
    ensures |s| == depth && forall i :: 0 <= i < |s| ==> s[i] !in names
  {
    var unused := FreshName(names);
    seq(depth, _ => unused)
  }

  lemma {:induction false} SplitLeaksInto(s: Location, u: nat, v: nat, a: seq<string>, b: seq<string>)
    requires u <= |s| && v <= |s| && s[..|s| - u] + a == s[..|s| - v] + b
    ensures u < v ==> s[|s| - v] in b
  {
    if u < v {
      var left, right := s[..|s| - u] + a, s[..|s| - v] + b;
      assert left[|s| - v] == s[|s| - v];
      assert right[|s| - v] == b[0];
    }
  }

  lemma {:induction false} SplitsAgree(s: Location, u: nat, v: nat, a: seq<string>, b: seq<string>)
    requires u <= |s| && v <= |s| && s[..|s| - u] + a == s[..|s| - v] + b
    requires forall i :: 0 <= i < |s| ==> s[i] !in a && s[i] !in b
    ensures u == v && a == b
  {
    SplitLeaksInto(s, u, v, a, b);
    SplitLeaksInto(s, v, u, b, a);
    assert (s[..|s| - u] + a)[|s| - u..] == a && (s[..|s| - v] + b)[|s| - v..] == b;
  }

  ghost predicate AgreeBeyond(p: seq<Component>, q: seq<Component>, depth: nat) {
    forall start: Location :: |start| >= depth ==> Locate(p, start) == Locate(q, start)
  }

  lemma {:induction false} SameUpsAndNames(p: seq<Component>, q: seq<Component>, s: Location)
    requires NormalForm(p) && !IsAbsolute(p) && NormalForm(q) && !IsAbsolute(q)
    requires Ups(p) <= |s| && Ups(q) <= |s| && Locate(p, s) == Locate(q, s)
    requires forall i :: 0 <= i < |s| ==> s[i] !in Names(p) && s[i] !in Names(q)
    ensures Ups(p) == Ups(q) && Names(p) == Names(q)
  {
    LocateRelative(p, s);
    LocateRelative(q, s);
    SplitsAgree(s, Ups(p), Ups(q), Names(p), Names(q));
  }

  /** One deep directory of unused names tells different relative normal forms apart. */
  lemma {:induction false} AgreeingFormsAreEqual(p: seq<Component>, q: seq<Component>, depth: nat)
    requires NormalForm(p) && !IsAbsolute(p) && NormalForm(q) && !IsAbsolute(q)
    requires AgreeBeyond(p, q, depth)
    ensures p == q
  {
    var names := Names(p) + Names(q);
    assert forall n :: n in Names(p) || n in Names(q) ==> n in names;
    var s := DeepDirectory(names, depth + Ups(p) + Ups(q));
    SameUpsAndNames(p, q, s);
    FormIsUpsAndNames(p);
    FormIsUpsAndNames(q);
  }

  lemma {:induction false} NormalizedAgree(p: seq<Component>, q: seq<Component>, depth: nat)
    ensures AgreeBeyond(p, q, depth) <==> AgreeBeyond(Normalized(p), Normalized(q), depth)
  {
    forall start: Location
      ensures Locate(p, start) == Locate(Normalized(p), start) && Locate(q, start) == Locate(Normalized(q), start)
    {
      NormalizedDenotesTheSame(p, start);
      NormalizedDenotesTheSame(q, start);
    }
  }

  /** Two relative paths lead to the same place from every deep enough directory exactly when they
      normalise to the same path, so the cache neither misses nor confuses them. */
  lemma {:induction false} SamePlaceSameForm(p: seq<Component>, q: seq<Component>)
    requires IsPath(p) && !IsAbsolute(p) && IsPath(q) && !IsAbsolute(q)
    ensures (exists depth: nat :: AgreeBeyond(p, q, depth)) <==> Normalized(p) == Normalized(q)
  {
    NormalizedIsNormal(p);
    NormalizedIsNormal(q);
    if Normalized(p) == Normalized(q) {
      NormalizedAgree(p, q, 0);
      assert AgreeBeyond(p, q, 0);
    }
    if depth: nat :| AgreeBeyond(p, q, depth) {
      NormalizedAgree(p, q, depth);
      AgreeingFormsAreEqual(Normalized(p), Normalized(q), depth);
    }
  }

  /** An absolute normal form is determined by the `..` it keeps after the root and the names after
      that. */
  lemma {:induction false} AbsoluteFormIsUpsAndNames(path: seq<Component>)
    requires NormalForm(path) && IsAbsolute(path)
    ensures path == [RootDir] + UpThenDown(Ups(path), Names(path))
  {
    var front, c := path[..|path| - 1], path[|path| - 1];
    if front == [] {
      assert path == [RootDir] && Ups(front) == 0 && Names(front) == [];
    } else {
      FrontOfForm(path);
      AbsoluteFormIsUpsAndNames(front);
      if c == ParentDir {
        UpOneMore(Ups(front));
      } else {
        DownOneMore(Ups(front), Names(front), c.name);
      }
    }
  }

  /** How many of the path's `..` are met at the root, where there is nowhere to go up to. */
  function Climbs(path: seq<Component>): nat {
    if path == [] then 0
    else
      var front := path[..|path| - 1];
      Climbs(front) + if path[|path| - 1] == ParentDir && Locate(front, []) == [] then 1 else 0
  }

  /** The `..` an absolute path keeps are exactly those met at the root. */
  lemma {:induction false} KeepsWhatClimbs(path: seq<Component>)
    requires IsPath(path) && IsAbsolute(path)
    ensures Ups(Normalized(path)) == Climbs(path)
  {
    var front, c := path[..|path| - 1], path[|path| - 1];
    if front == [] {
      assert Normalized(front) == [] && [RootDir][..0] == [];
    } else {
      KeepsWhatClimbs(front);
      NormalizedIsNormal(front);
      NormalizedDenotesTheSame(front, []);
      LocateAbsolute(Normalized(front), []);
      PushingKeepsUps(Normalized(front), c);
    }
  }

  /** One more component adds a `..` exactly when it is one and there is no name to take back. */
  lemma {:induction false} PushingKeepsUps(out: seq<Component>, c: Component)
    requires NormalForm(out) && c != RootDir
    ensures Ups(Pushed(out, c)) == Ups(out) + if c == ParentDir && Names(out) == [] then 1 else 0
  {
    match c
    case CurDir =>
    case ParentDir =>
      if out != [] && out[|out| - 1].Normal? {
        var front, last := out[..|out| - 1], out[|out| - 1];
        assert Pushed(out, c) == front && Ups(out) == Ups(front);
        assert Names(out) == Names(front) + [last.name];
      } else {
        NoNames(out);
        AppendingCounts(out, c);
      }
    case Normal(_) =>
      AppendingCounts(out, c);
  }

  lemma {:induction false} AppendingCounts(out: seq<Component>, c: Component)
    ensures Ups(out + [c]) == Ups(out) + if c == ParentDir then 1 else 0
  {
    var longer := out + [c];
    assert longer[..|longer| - 1] == out;
  }

  /** Two absolute paths get one key exactly when they lead to the same place and meet the root with
      equally many `..`, which their keys keep. */
  lemma {:induction false} AbsoluteSameFormExactlyIf(p: seq<Component>, q: seq<Component>, start: Location)
    requires IsPath(p) && IsAbsolute(p) && IsPath(q) && IsAbsolute(q)
    ensures Normalized(p) == Normalized(q) <==> Locate(p, start) == Locate(q, start) && Climbs(p) == Climbs(q)
    ensures Locate(p, start) == Locate(q, start) <==> Names(Normalized(p)) == Names(Normalized(q))
  {
    NormalizedIsNormal(p);
    NormalizedIsNormal(q);
    NormalizedDenotesTheSame(p, start);
    NormalizedDenotesTheSame(q, start);
    LocateAbsolute(Normalized(p), start);
    LocateAbsolute(Normalized(q), start);
    KeepsWhatClimbs(p);
    KeepsWhatClimbs(q);
    AbsoluteFormIsUpsAndNames(Normalized(p));
    AbsoluteFormIsUpsAndNames(Normalized(q));
  }

  /** Absolute paths whose `..` never climb above the root get one key per directory. */
  lemma {:induction false} OneKeyPerDirectory(p: seq<Component>, q: seq<Component>, start: Location)
    requires IsPath(p) && IsAbsolute(p) && IsPath(q) && IsAbsolute(q)
    requires Climbs(p) == 0 && Climbs(q) == 0
    ensures Normalized(p) == Normalized(q) <==> Locate(p, start) == Locate(q, start)
  {
    AbsoluteSameFormExactlyIf(p, q, start);
  }

  /** `/..` and `/` are one directory under two keys. */
  lemma {:induction false} RootHasTwoForms(start: Location)
    ensures Locate([RootDir, ParentDir], start) == Locate([RootDir], start)
    ensures Normalized([RootDir, ParentDir]) != Normalized([RootDir])
  {
    assert [RootDir, ParentDir][..1] == [RootDir] && [RootDir][..0] == [];
    assert Normalized([RootDir]) == [RootDir];
  }
}
