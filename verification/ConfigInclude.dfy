/** Loading a configuration file with its includes, each file at most once. */
module ConfigIncludes {
  import opened Collections

  type Path = string

  type Settings = map<string, string>

  /** A file: does it parse, which (already absolute) files does it include, which settings does it set. */
  datatype File = File(parses: bool, includes: seq<Path>, settings: Settings)

  type Disk = map<Path, File>

  datatype LoadError = CircularInclude(path: Path) | Unreadable(path: Path) | Unparsable(path: Path)

  datatype Outcome = Loaded | Failed(error: LoadError)

  datatype State = State(cfg: Settings, visited: set<Path>)

  /** loadConfigFile on values. */
  function Load(disk: Disk, path: Path, s: State): (r: (State, Outcome))
    ensures s.visited <= r.0.visited
    decreases disk.Keys - s.visited, 0
  {
    if path in s.visited then (s, Failed(CircularInclude(path)))
    else
      var s1 := s.(visited := s.visited + {path});
      if path !in disk then (s1, Failed(Unreadable(path)))
      else if !disk[path].parses then (s1, Failed(Unparsable(path)))
      else
        var (s2, r) := LoadAll(disk, disk[path].includes, s1);
        if r.Failed? then (s2, r) else (s2.(cfg := s2.cfg + disk[path].settings), Loaded)
  }

  /** The include loop. */
  function LoadAll(disk: Disk, paths: seq<Path>, s: State): (r: (State, Outcome))
    ensures s.visited <= r.0.visited
    decreases disk.Keys - s.visited, 1 + |paths|
  {
    if paths == [] then (s, Loaded)
    else
      var (s1, r) := Load(disk, paths[0], s);
      if r.Failed? then (s1, r) else LoadAll(disk, paths[1..], s1)
  }

  class Loader {
    const disk: Disk
    var cfg: Settings
    var loadedPaths: set<Path>

    constructor (disk: Disk, defaults: Settings)
      ensures this.disk == disk && cfg == defaults && loadedPaths == {}
    {
      this.disk := disk;
      cfg := defaults;
      loadedPaths := {};
    }

    /** Terminates on every finite disk, however the files include each other: each call marks a file not yet marked. */
    method LoadConfigFile(path: Path) returns (r: Outcome)
      modifies this
      ensures (State(cfg, loadedPaths), r) == Load(disk, path, State(old(cfg), old(loadedPaths)))
      decreases disk.Keys - loadedPaths
    {
      if path in loadedPaths {
        return Failed(CircularInclude(path));
      }
      loadedPaths := loadedPaths + {path};
      if path !in disk {
        return Failed(Unreadable(path));
      }
      var file := disk[path];
      if !file.parses {
        return Failed(Unparsable(path));
      }
      ghost var start := State(cfg, loadedPaths);
      for i := 0 to |file.includes|
        invariant start.visited <= loadedPaths
        invariant LoadAll(disk, file.includes, start) == LoadAll(disk, file.includes[i..], State(cfg, loadedPaths))
      {
        r := LoadConfigFile(file.includes[i]);
        if r.Failed? {
          return;
        }
      }
      cfg := cfg + file.settings;
      r := Loaded;
    }
  }

  // ----- when it succeeds, and with what -----

  /** The files as they include each other, unfolded from one file. */
  datatype Tree = Node(path: Path, includes: Forest)
  datatype Forest = Nil | Cons(first: Tree, rest: Forest)

  /** The tree is the complete unfolding: every file in it exists and parses, and all its includes follow. */
  ghost predicate TreeOf(disk: Disk, path: Path, t: Tree)
    decreases t
  {
    t.path == path && path in disk && disk[path].parses && ForestOf(disk, disk[path].includes, t.includes)
  }

  ghost predicate ForestOf(disk: Disk, paths: seq<Path>, f: Forest)
    decreases f
  {
    match f
    case Nil => paths == []
    case Cons(t, rest) => paths != [] && TreeOf(disk, paths[0], t) && ForestOf(disk, paths[1..], rest)
  }

  /** All files of the tree, one entry for each time a file is reached; each file after its includes. */
  function PostOrder(t: Tree): seq<Path> {
    ForestPostOrder(t.includes) + [t.path]
  }

  function ForestPostOrder(f: Forest): seq<Path> {
    match f
    case Nil => []
    case Cons(t, rest) => PostOrder(t) + ForestPostOrder(rest)
  }

  function Elements(s: seq<Path>): set<Path> {
    set p | p in s
  }

  /** Each file in turn overrides what came before. */
  function Overridden(disk: Disk, cfg: Settings, order: seq<Path>): Settings
    decreases |order|
  {
    if order == [] then cfg
    else
      var last := order[|order| - 1];
      var before := Overridden(disk, cfg, order[..|order| - 1]);
      if last in disk then before + disk[last].settings else before
  }

  lemma {:induction false} OverriddenAppend(disk: Disk, cfg: Settings, a: seq<Path>, b: seq<Path>)
    ensures Overridden(disk, cfg, a + b) == Overridden(disk, Overridden(disk, cfg, a), b)
    decreases |b|
  {
    if b == [] {
      assert a + b == a;
    } else {
      var k := |b| - 1;
      assert (a + b)[..|a + b| - 1] == a + b[..k];
      OverriddenAppend(disk, cfg, a, b[..k]);
    }
  }

  /** Reading the files of this order succeeds from s: none was visited before and none comes twice. */
  ghost predicate FirstTime(order: seq<Path>, s: State) {
    Distinct(order) && forall p :: p in order ==> p !in s.visited
  }

  function Result(disk: Disk, order: seq<Path>, s: State): State {
    State(Overridden(disk, s.cfg, order), s.visited + Elements(order))
  }

  lemma ElementsAppend(a: seq<Path>, b: seq<Path>)
    ensures Elements(a + b) == Elements(a) + Elements(b)
  {
  }

  lemma NothingRead(disk: Disk, s: State)
    ensures Result(disk, [], s) == s
  {
    assert Elements([]) == {};
  }

  lemma JoinResults(disk: Disk, a: seq<Path>, b: seq<Path>, s: State)
    ensures Result(disk, b, Result(disk, a, s)) == Result(disk, a + b, s)
  {
    OverriddenAppend(disk, s.cfg, a, b);
    ElementsAppend(a, b);
    assert (s.visited + Elements(a)) + Elements(b) == s.visited + Elements(a + b);
  }

  lemma JoinFirstTime(disk: Disk, a: seq<Path>, b: seq<Path>, s: State)
    ensures FirstTime(a + b, s) <==> FirstTime(a, s) && FirstTime(b, Result(disk, a, s))
  {
    var ab := a + b;
    assert forall i :: 0 <= i < |a| ==> ab[i] == a[i];
    assert forall i :: 0 <= i < |b| ==> ab[|a| + i] == b[i];
    assert forall p :: p in ab <==> p in a || p in b;
    if FirstTime(ab, s) {
      forall p | p in b
        ensures p !in s.visited && p !in a
      {
        var j :| 0 <= j < |b| && b[j] == p;
        assert ab[|a| + j] == p;
      }
      forall i, j | 0 <= i < j < |b|
        ensures b[i] != b[j]
      {
        assert ab[|a| + i] != ab[|a| + j];
      }
    }
    if FirstTime(a, s) && FirstTime(b, Result(disk, a, s)) {
      forall i, j | 0 <= i < j < |ab|
        ensures ab[i] != ab[j]
      {
        if i < |a| <= j {
          assert ab[j] in b && ab[i] in Elements(a);
        } else if |a| <= i {
          assert b[i - |a|] != b[j - |a|];
        }
      }
    }
  }

  /** Success yields a tree, all of its files for the first time, and the post-order override. */
  lemma {:induction false} LoadedGivesTree(disk: Disk, path: Path, s: State) returns (t: Tree)
    requires Load(disk, path, s).1 == Loaded
    ensures TreeOf(disk, path, t) && FirstTime(PostOrder(t), s)
    ensures Load(disk, path, s).0 == Result(disk, PostOrder(t), s)
    decreases disk.Keys - s.visited, 0
  {
    var f := LoadedGivesForest(disk, disk[path].includes, s.(visited := s.visited + {path}));
    t := Node(path, f);
    FirstTimeAbove(path, ForestPostOrder(f), s);
    ResultOfFile(disk, path, ForestPostOrder(f), s);
  }

  lemma FirstTimeAbove(path: Path, order: seq<Path>, s: State)
    requires path !in s.visited && FirstTime(order, s.(visited := s.visited + {path}))
    ensures FirstTime(order + [path], s)
  {
    forall i | 0 <= i < |order|
      ensures order[i] !in s.visited && order[i] != path
    {
      assert order[i] in order;
    }
  }

  lemma {:induction false} LoadedGivesForest(disk: Disk, paths: seq<Path>, s: State) returns (f: Forest)
    requires LoadAll(disk, paths, s).1 == Loaded
    ensures ForestOf(disk, paths, f) && FirstTime(ForestPostOrder(f), s)
    ensures LoadAll(disk, paths, s).0 == Result(disk, ForestPostOrder(f), s)
    decreases disk.Keys - s.visited, 1 + |paths|
  {
    if paths == [] {
      f := Nil;
      NothingRead(disk, s);
    } else {
      var t := LoadedGivesTree(disk, paths[0], s);
      var s1 := Load(disk, paths[0], s).0;
      var rest := LoadedGivesForest(disk, paths[1..], s1);
      f := Cons(t, rest);
      JoinResults(disk, PostOrder(t), ForestPostOrder(rest), s);
      JoinFirstTime(disk, PostOrder(t), ForestPostOrder(rest), s);
    }
  }

  /** A file is not among the files it includes, and those are all met for the first time. */
  lemma FirstTimeBelow(path: Path, order: seq<Path>, s: State)
    requires FirstTime(order + [path], s)
    ensures path !in s.visited && FirstTime(order, s.(visited := s.visited + {path}))
  {
    var all := order + [path];
    assert all[|order|] == path;
    forall i | 0 <= i < |order|
      ensures order[i] !in s.visited && order[i] != path
    {
      assert all[i] == order[i];
    }
    forall i, j | 0 <= i < j < |order|
      ensures order[i] != order[j]
    {
      assert all[i] != all[j];
    }
  }

  /** The file itself comes last, over its includes. */
  lemma ResultOfFile(disk: Disk, path: Path, order: seq<Path>, s: State)
    requires path in disk
    ensures var r := Result(disk, order, s.(visited := s.visited + {path}));
            r.(cfg := r.cfg + disk[path].settings) == Result(disk, order + [path], s)
  {
    OverriddenAppend(disk, s.cfg, order, [path]);
    assert [path][..0] == [];
    ElementsAppend(order, [path]);
    assert s.visited + {path} + Elements(order) == s.visited + Elements(order + [path]);
  }

  /** A tree whose files are all reached for the first time loads. */
  lemma {:induction false} TreeLoads(disk: Disk, path: Path, s: State, t: Tree)
    requires TreeOf(disk, path, t) && FirstTime(PostOrder(t), s)
    ensures Load(disk, path, s) == (Result(disk, PostOrder(t), s), Loaded)
    decreases t
  {
    var order := ForestPostOrder(t.includes);
    FirstTimeBelow(path, order, s);
    ForestLoads(disk, disk[path].includes, s.(visited := s.visited + {path}), t.includes);
    ResultOfFile(disk, path, order, s);
  }

  lemma {:induction false} ForestLoads(disk: Disk, paths: seq<Path>, s: State, f: Forest)
    requires ForestOf(disk, paths, f) && FirstTime(ForestPostOrder(f), s)
    ensures LoadAll(disk, paths, s) == (Result(disk, ForestPostOrder(f), s), Loaded)
    decreases f
  {
    match f
    case Nil => NothingRead(disk, s);
    case Cons(t, rest) =>
      var a, b := PostOrder(t), ForestPostOrder(rest);
      JoinFirstTime(disk, a, b, s);
      JoinResults(disk, a, b, s);
      TreeLoads(disk, paths[0], s, t);
      ForestLoads(disk, paths[1..], Result(disk, a, s), rest);
  }

  /** Loading succeeds if and only if the includes unfold to a finite tree of existing, parsing files in which no file
      is reached twice (on a cycle or by two routes); the result is then the defaults overridden by those files, each
      after the files it includes. */
  lemma LoadSucceedsIff(disk: Disk, path: Path, defaults: Settings)
    ensures var (s, r) := Load(disk, path, State(defaults, {}));
            && (r == Loaded <==> exists t :: TreeOf(disk, path, t) && Distinct(PostOrder(t)))
            && forall t :: TreeOf(disk, path, t) && Distinct(PostOrder(t)) ==>
                 s.cfg == Overridden(disk, defaults, PostOrder(t)) && s.visited == Elements(PostOrder(t))
  {
    var s0 := State(defaults, {});
    if Load(disk, path, s0).1 == Loaded {
      var t := LoadedGivesTree(disk, path, s0);
    }
    forall t | TreeOf(disk, path, t) && Distinct(PostOrder(t))
      ensures Load(disk, path, s0).1 == Loaded
      ensures Load(disk, path, s0).0.cfg == Overridden(disk, defaults, PostOrder(t))
      ensures Load(disk, path, s0).0.visited == Elements(PostOrder(t))
    {
      TreeLoadsFresh(disk, path, defaults, t);
    }
  }

  lemma TreeLoadsFresh(disk: Disk, path: Path, defaults: Settings, t: Tree)
    requires TreeOf(disk, path, t) && Distinct(PostOrder(t))
    ensures var (s, r) := Load(disk, path, State(defaults, {}));
            r == Loaded && s.cfg == Overridden(disk, defaults, PostOrder(t)) && s.visited == Elements(PostOrder(t))
  {
    TreeLoads(disk, path, State(defaults, {}), t);
  }

  // ----- which value wins, and what an error means -----

  predicate SetsKey(disk: Disk, path: Path, key: string) {
    path in disk && key in disk[path].settings
  }

  /** A setting has the value from the last file in the order that sets it, and without such a file its default. */
  lemma {:induction false} LastFileWins(disk: Disk, cfg: Settings, order: seq<Path>, key: string)
    ensures var r := Overridden(disk, cfg, order);
            && (forall i :: 0 <= i < |order| && SetsKey(disk, order[i], key)
                            && (forall j :: i < j < |order| ==> !SetsKey(disk, order[j], key)) ==>
                  key in r && r[key] == disk[order[i]].settings[key])
            && ((forall i :: 0 <= i < |order| ==> !SetsKey(disk, order[i], key)) ==>
                  (key in r <==> key in cfg) && (key in cfg ==> r[key] == cfg[key]))
    decreases |order|
  {
    if order != [] {
      var k := |order| - 1;
      var init := order[..k];
      LastFileWins(disk, cfg, init, key);
      assert forall i :: 0 <= i < k ==> init[i] == order[i];
    }
  }

  /** The file can be read and makes sense. */
  predicate Readable(disk: Disk, path: Path) {
    path in disk && disk[path].parses
  }

  predicate ErrorFits(disk: Disk, e: LoadError) {
    match e
    case CircularInclude(p) => Readable(disk, p)
    case Unreadable(p) => p !in disk
    case Unparsable(p) => p in disk && !disk[p].parses
  }

  /** An error names a file that fits it: one that is missing, one that does not parse, or one that does both but is
      reached again. */
  lemma {:induction false} ErrorsFit(disk: Disk, path: Path, s: State)
    requires forall p :: p in s.visited ==> Readable(disk, p)
    ensures var (t, r) := Load(disk, path, s);
            if r.Failed? then ErrorFits(disk, r.error) else forall p :: p in t.visited ==> Readable(disk, p)
    decreases disk.Keys - s.visited, 0
  {
    if path !in s.visited && Readable(disk, path) {
      AllErrorsFit(disk, disk[path].includes, s.(visited := s.visited + {path}));
    }
  }

  lemma {:induction false} AllErrorsFit(disk: Disk, paths: seq<Path>, s: State)
    requires forall p :: p in s.visited ==> Readable(disk, p)
    ensures var (t, r) := LoadAll(disk, paths, s);
            if r.Failed? then ErrorFits(disk, r.error) else forall p :: p in t.visited ==> Readable(disk, p)
    decreases disk.Keys - s.visited, 1 + |paths|
  {
    if paths != [] {
      ErrorsFit(disk, paths[0], s);
      var (s1, r) := Load(disk, paths[0], s);
      if r.Loaded? {
        AllErrorsFit(disk, paths[1..], s1);
      }
    }
  }
}
