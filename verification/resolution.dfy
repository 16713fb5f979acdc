/**
 Query resolution: each query name is looked up in the map the mode
 selects, and the file of every name found is added to a `std::set`.
 The lookups use `operator[]`, so the model carries the index along and
 shows that, on an index built by `BuildIndex`, they never add an entry.
 */
module Resolution {
  import opened Args
  import StdMap
  import opened SortedSet
  import opened Index

  /** The set of paths collected so far and the index as the lookups left it. */
  datatype State = State(paths: seq<string>, index: Maps)

  /** Whether the query name is a key of the map the mode consults. */
  predicate Found(mode: Mode, idx: Maps, q: string)
  {
    if mode == ByElement then q in idx.nameOfPlugin else q in idx.pluginPath
  }

  /** The file a found name stands for. */
  function Target(mode: Mode, idx: Maps, q: string): string
    requires Consistent(idx) && Found(mode, idx, q)
  {
    if mode == ByElement then idx.pluginPath[idx.nameOfPlugin[q]] else idx.pluginPath[q]
  }

  /** The reference answer: the files of the names found, as a set. */
  function Expected(mode: Mode, idx: Maps, names: set<string>): set<string>
    requires Consistent(idx)
  {
    set q | q in names && Found(mode, idx, q) :: Target(mode, idx, q)
  }

  /** One iteration of either resolution loop of `main`. */
  function Step(mode: Mode, st: State, q: string): (r: State)
    requires Sorted(st.paths)
    ensures Sorted(r.paths)
    ensures Elements(st.paths) <= Elements(r.paths)
    ensures StdMap.Extends(st.index.pluginPath, r.index.pluginPath)
    ensures r.index.nameOfPlugin == st.index.nameOfPlugin
    ensures Elements(r.paths) <= Elements(st.paths) + r.index.pluginPath.Values
  {
    var idx := st.index;
    if mode == ByElement then
      if q !in idx.nameOfPlugin then st
      else
        var (name, _) := StdMap.Subscript(idx.nameOfPlugin, q);
        var (path, pluginPath') := StdMap.Subscript(idx.pluginPath, name);
        var paths' := Insert(st.paths, path);
        assert path in pluginPath'.Values;
        State(paths', Maps(pluginPath', idx.nameOfPlugin))
    else
      if q !in idx.pluginPath then st
      else
        var (path, pluginPath') := StdMap.Subscript(idx.pluginPath, q);
        var paths' := Insert(st.paths, path);
        assert path in pluginPath'.Values;
        State(paths', Maps(pluginPath', idx.nameOfPlugin))
  }

  /** The resolution loop over the query names in order: the set only grows,
      stays ascending, and holds nothing but files stored in the index as the
      lookups leave it. */
  function Steps(mode: Mode, st: State, qs: seq<string>): (r: State)
    requires Sorted(st.paths)
    ensures Sorted(r.paths)
    ensures Elements(st.paths) <= Elements(r.paths)
    ensures StdMap.Extends(st.index.pluginPath, r.index.pluginPath)
    ensures Elements(st.paths) <= st.index.pluginPath.Values ==> Elements(r.paths) <= r.index.pluginPath.Values
  {
    if |qs| == 0 then st
    else
      var mid := Steps(mode, st, qs[..|qs| - 1]);
      var r := Step(mode, mid, qs[|qs| - 1]);
      ExtendsValues(mid.index.pluginPath, r.index.pluginPath);
      r
  }

  /** Extending a map keeps every value it had. */
  lemma ExtendsValues(a: StdMap.Table, b: StdMap.Table)
    requires StdMap.Extends(a, b)
    ensures a.Values <= b.Values
  {
    forall v | v in a.Values
      ensures v in b.Values
    {
      var k :| k in a && a[k] == v;
      assert b[k] == v;
    }
  }

  /** Resolution from an empty set of paths: an ascending, duplicate-free
      set of files stored in `plugin_path`. */
  function Resolve(mode: Mode, idx: Maps, qs: seq<string>): (r: State)
    ensures Sorted(r.paths)
    ensures Elements(r.paths) <= r.index.pluginPath.Values
  {
    Steps(mode, State(Empty, idx), qs)
  }

  /** On a consistent index one step leaves the index alone and adds exactly
      the file of the name when it is found. */
  lemma StepSpec(mode: Mode, st: State, q: string)
    requires Sorted(st.paths) && Consistent(st.index)
    ensures Step(mode, st, q).index == st.index
    ensures Elements(Step(mode, st, q).paths)
         == Elements(st.paths) + (if Found(mode, st.index, q) then {Target(mode, st.index, q)} else {})
  {
  }

  lemma ExpectedAddOne(mode: Mode, idx: Maps, names: set<string>, q: string)
    requires Consistent(idx)
    ensures Expected(mode, idx, names + {q})
         == Expected(mode, idx, names) + (if Found(mode, idx, q) then {Target(mode, idx, q)} else {})
  {
  }

  /** The loop leaves a consistent index unchanged (no lookup inserts a
      default entry), and the set it collects is its starting contents plus
      the files of exactly the names found. */
  lemma {:induction false} StepsSpec(mode: Mode, st: State, qs: seq<string>)
    requires Sorted(st.paths) && Consistent(st.index)
    ensures Steps(mode, st, qs).index == st.index
    ensures Elements(Steps(mode, st, qs).paths) == Elements(st.paths) + Expected(mode, st.index, Elements(qs))
  {
    if |qs| > 0 {
      var init := qs[..|qs| - 1];
      var q := qs[|qs| - 1];
      var mid := Steps(mode, st, init);
      var r := Step(mode, mid, q);
      assert Steps(mode, st, qs) == r;
      StepsSpec(mode, st, init);
      StepSpec(mode, mid, q);
      ElementsSnoc(qs);
      ExpectedAddOne(mode, st.index, Elements(init), q);
      var before := Expected(mode, st.index, Elements(init));
      var extra := if Found(mode, st.index, q) then {Target(mode, st.index, q)} else {};
      assert Elements(r.paths) == Elements(mid.paths) + extra;
      assert Elements(mid.paths) == Elements(st.paths) + before;
      assert Expected(mode, st.index, Elements(qs)) == before + extra;
    } else {
      assert Elements(qs) == {};
    }
  }

  /** Resolution on a consistent index: the index is left as it was and the
      result is the ascending, duplicate-free list of exactly the files of the
      names found; names not found contribute nothing. */
  lemma ResolveSpec(mode: Mode, idx: Maps, qs: seq<string>)
    requires Consistent(idx)
    ensures Resolve(mode, idx, qs).index == idx
    ensures Sorted(Resolve(mode, idx, qs).paths)
    ensures Elements(Resolve(mode, idx, qs).paths) == Expected(mode, idx, Elements(qs))
  {
    StepsSpec(mode, State(Empty, idx), qs);
  }

  /** Looking names up by plugin never touches the index, whatever it holds. */
  lemma {:induction false} PluginModeKeepsIndex(st: State, qs: seq<string>)
    requires Sorted(st.paths)
    ensures Steps(ByPlugin, st, qs).index == st.index
  {
    if |qs| > 0 {
      PluginModeKeepsIndex(st, qs[..|qs| - 1]);
    }
  }

  /** Permuting or repeating the query names does not change the result. */
  lemma SameNamesSameResult(mode: Mode, idx: Maps, qs1: seq<string>, qs2: seq<string>)
    requires Consistent(idx)
    requires Elements(qs1) == Elements(qs2)
    ensures Resolve(mode, idx, qs1) == Resolve(mode, idx, qs2)
  {
    ResolveSpec(mode, idx, qs1);
    ResolveSpec(mode, idx, qs2);
    SortedUnique(Resolve(mode, idx, qs1).paths, Resolve(mode, idx, qs2).paths);
  }

  /** Running the resolution loop again over the same names, on the state
      the first run left, changes nothing. */
  lemma ResolveIdempotent(mode: Mode, idx: Maps, qs: seq<string>)
    requires Consistent(idx)
    ensures Steps(mode, Resolve(mode, idx, qs), qs) == Resolve(mode, idx, qs)
  {
    var r := Resolve(mode, idx, qs);
    ResolveSpec(mode, idx, qs);
    StepsSpec(mode, r, qs);
    SortedUnique(Steps(mode, r, qs).paths, r.paths);
  }
}
