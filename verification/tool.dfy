/**
 The whole run of the tool: scan the arguments, index the registry, resolve
 the query names and print the resulting set.
 */
module Tool {
  import opened Registry
  import opened Args
  import opened Index
  import opened SortedSet
  import opened Resolution
  import opened Output

  /** What `main` prints after its diagnostics, for the argument vector
      `argv` and the registry's plugin list `registry`: nothing at all
      exactly when no query name is a key of the map the mode selects. */
  function Execute(argv: seq<string>, registry: seq<Entry>): (out: string)
    ensures var flags := Parse(argv);
      (out == "") <==>
      (forall q :: q in Names(argv, flags.startWith) ==> !Found(flags.LookupMode(), BuildIndex(registry), q))
  {
    var flags := Parse(argv);
    var idx := BuildIndex(registry);
    var names := Names(argv, flags.startWith);
    BuildConsistent(registry);
    var paths := Resolve(flags.LookupMode(), idx, names).paths;
    ResolveSpec(flags.LookupMode(), idx, names);
    NoElements(paths);
    assert (exists q :: q in names && Found(flags.LookupMode(), idx, q)) ==> Expected(flags.LookupMode(), idx, Elements(names)) != {} by {
      if q :| q in names && Found(flags.LookupMode(), idx, q) {
        assert Target(flags.LookupMode(), idx, q) in Expected(flags.LookupMode(), idx, Elements(names));
      }
    }
    Render(paths)
  }

  /** End to end: when no plugin file name contains a space, the printed
      line lists the files of exactly the query names found, ascending and
      each once. */
  lemma ExecuteListsFound(argv: seq<string>, registry: seq<Entry>)
    requires forall i :: 0 <= i < |registry| && Indexable(registry[i]) ==> ' ' !in FileOf(registry[i])
    ensures Consistent(BuildIndex(registry))
    ensures var flags := Parse(argv);
      var out := Decode(Execute(argv, registry));
      Sorted(out) && Elements(out) == Expected(flags.LookupMode(), BuildIndex(registry), Elements(Names(argv, flags.startWith)))
  {
    var flags := Parse(argv);
    var idx := BuildIndex(registry);
    var names := Names(argv, flags.startWith);
    BuildConsistent(registry);
    ResolveSpec(flags.LookupMode(), idx, names);
    var paths := Resolve(flags.LookupMode(), idx, names).paths;
    forall i | 0 <= i < |paths|
      ensures ' ' !in paths[i]
    {
      assert paths[i] in Elements(paths);
      var q :| q in Elements(names) && Found(flags.LookupMode(), idx, q) && paths[i] == Target(flags.LookupMode(), idx, q);
      var n := if flags.LookupMode() == ByElement then idx.nameOfPlugin[q] else q;
      PathsFromRegistry(registry, n);
    }
    RenderDecode(paths);
  }

  /** An element resolves to the file of the first plugin carrying the name
      of the first plugin that offers the element. */
  lemma ElementResolvesToFirstProvider(es: seq<Entry>, x: string, i: int, k: int)
    requires FirstOffer(es, i, x) && FirstProvider(es, k, NameOf(es[i]))
    ensures Resolve(ByElement, BuildIndex(es), [x]).paths == [FileOf(es[k])]
  {
    var idx := BuildIndex(es);
    BuildConsistent(es);
    ElementMapSpec(es, x);
    PluginPathSpec(es, NameOf(es[i]));
    ResolveSpec(ByElement, idx, [x]);
    assert Elements([x]) == {x};
    assert Expected(ByElement, idx, {x}) == {FileOf(es[k])};
    SortedUnique(Resolve(ByElement, idx, [x]).paths, [FileOf(es[k])]);
  }

  /** A plugin name resolves to the file of the first plugin carrying it. */
  lemma PluginResolvesToFirstProvider(es: seq<Entry>, n: string, k: int)
    requires FirstProvider(es, k, n)
    ensures Resolve(ByPlugin, BuildIndex(es), [n]).paths == [FileOf(es[k])]
  {
    var idx := BuildIndex(es);
    BuildConsistent(es);
    PluginPathSpec(es, n);
    ResolveSpec(ByPlugin, idx, [n]);
    assert Elements([n]) == {n};
    assert Expected(ByPlugin, idx, {n}) == {FileOf(es[k])};
    SortedUnique(Resolve(ByPlugin, idx, [n]).paths, [FileOf(es[k])]);
  }

  /** Two elements of the same plugin yield its file once, not twice. */
  lemma SamePluginOnePath(es: seq<Entry>, x: string, y: string, i: int, k: int)
    requires FirstOffer(es, i, x) && FirstOffer(es, i, y) && FirstProvider(es, k, NameOf(es[i]))
    ensures Resolve(ByElement, BuildIndex(es), [x, y]).paths == [FileOf(es[k])]
  {
    var idx := BuildIndex(es);
    BuildConsistent(es);
    ElementResolvesToFirstProvider(es, x, i, k);
    ElementMapSpec(es, y);
    PluginPathSpec(es, NameOf(es[i]));
    var first := Resolve(ByElement, idx, [x]);
    ResolveSpec(ByElement, idx, [x]);
    assert [x, y][..1] == [x];
    assert Resolve(ByElement, idx, [x, y]) == Step(ByElement, first, y);
    assert Target(ByElement, idx, y) == FileOf(es[k]);
  }
}
