/**
 Index construction: one pass over the plugin list fills the plugin-name to
 file map (`plugin_path`) and the element-name to plugin-name map
 (`name_of_plugin`).
 */
module Index {
  import opened Optional
  import opened Registry
  import opened StdMap

  /** The two maps the plugin loop fills: `plugin_path` and `name_of_plugin`. */
  datatype Maps = Maps(pluginPath: Table, nameOfPlugin: Table)

  /** Both maps before the first plugin is seen. */
  const EmptyIndex := Maps(map[], map[])

  /** Every plugin an element is filed under has a file entry, so looking
      that plugin up never has to invent one. This is the pointwise form of
      `nameOfPlugin.Values <= pluginPath.Keys`, the invariant `BuildIndex`
      states; `BuildConsistent` turns the one into the other. */
  predicate Consistent(idx: Maps)
  {
    forall x :: x in idx.nameOfPlugin ==> idx.nameOfPlugin[x] in idx.pluginPath
  }

  /** What happens to one entry of the plugin list. `MissingInfo` carries
      whether a verbose run reports it. */
  datatype Disposition = NullPlugin | MissingInfo(reported: bool) | Indexed

  function Classify(e: Entry): (d: Disposition)
    ensures d == Indexed <==> Indexable(e)
    ensures d == NullPlugin <==> e.None?
    ensures d.MissingInfo? ==> (d.reported <==> e.value.name != Some("staticelements"))
  {
    if e.None? then NullPlugin
    else if e.value.filename.None? || e.value.name.None? then
      MissingInfo(e.value.name.None? || e.value.name.value != "staticelements")
    else Indexed
  }

  /** The names of the element factories among `fs`. */
  function ElementNames(fs: seq<Feature>): set<string>
  {
    set f | f in fs && f.ElementFactory? :: f.name
  }

  /** The feature loop: each element factory is filed under `plugin` unless
      its name is already a key; null and other features are passed over. */
  function AddFeatures(m: Table, plugin: string, fs: seq<Feature>): (r: Table)
    ensures Extends(m, r)
    ensures r.Keys == m.Keys + ElementNames(fs)
    ensures forall k :: k in r && k !in m ==> r[k] == plugin
    decreases |fs|
  {
    if |fs| == 0 then m
    else
      var m' := if fs[0].ElementFactory? then Insert(m, fs[0].name, plugin) else m;
      assert ElementNames(fs) == ElementNames(fs[1..]) + (if fs[0].ElementFactory? then {fs[0].name} else {});
      AddFeatures(m', plugin, fs[1..])
  }

  /** `iterate_elements_in_plugin`: an indexable plugin records its file under
      its name, then files its element factories under its name. */
  function IndexPlugin(idx: Maps, e: Entry): (r: Maps)
    ensures !Indexable(e) ==> r == idx
    ensures Extends(idx.pluginPath, r.pluginPath)
    ensures Extends(idx.nameOfPlugin, r.nameOfPlugin)
  {
    if Classify(e) != Indexed then idx
    else
      Maps(Insert(idx.pluginPath, NameOf(e), FileOf(e)),
            AddFeatures(idx.nameOfPlugin, NameOf(e), e.value.features))
  }

  /** The plugin loop of `main`: the entries in enumeration order. */
  function BuildIndex(es: seq<Entry>): (idx: Maps)
    ensures idx.nameOfPlugin.Values <= idx.pluginPath.Keys
  {
    if |es| == 0 then EmptyIndex
    else
      var before := BuildIndex(es[..|es| - 1]);
      IndexPluginConsistent(before, es[|es| - 1]);
      IndexPlugin(before, es[|es| - 1])
  }

  /** `i` is the first entry providing a plugin called `n`. */
  predicate FirstProvider(es: seq<Entry>, i: int, n: string)
  {
    0 <= i < |es| && Provides(es[i], n) && forall j :: 0 <= j < i ==> !Provides(es[j], n)
  }

  /** `i` is the first entry offering an element called `x`. */
  predicate FirstOffer(es: seq<Entry>, i: int, x: string)
  {
    0 <= i < |es| && Offers(es[i], x) && forall j :: 0 <= j < i ==> !Offers(es[j], x)
  }

  lemma IndexPluginConsistent(idx: Maps, e: Entry)
    requires idx.nameOfPlugin.Values <= idx.pluginPath.Keys
    ensures IndexPlugin(idx, e).nameOfPlugin.Values <= IndexPlugin(idx, e).pluginPath.Keys
  {
    var r := IndexPlugin(idx, e);
    forall v | v in r.nameOfPlugin.Values
      ensures v in r.pluginPath.Keys
    {
      var x :| x in r.nameOfPlugin && r.nameOfPlugin[x] == v;
      if x in idx.nameOfPlugin {
        assert v in idx.nameOfPlugin.Values;
      }
    }
  }

  /** The key-containment invariant holds after indexing. */
  lemma BuildConsistent(es: seq<Entry>)
    ensures Consistent(BuildIndex(es))
  {
    var idx := BuildIndex(es);
    forall x | x in idx.nameOfPlugin
      ensures idx.nameOfPlugin[x] in idx.pluginPath
    {
      assert idx.nameOfPlugin[x] in idx.nameOfPlugin.Values;
    }
  }

  /** A plugin name is a key exactly when some indexable entry carries it,
      and it maps to the file of the first such entry. */
  lemma {:induction false} PluginPathSpec(es: seq<Entry>, n: string)
    ensures n in BuildIndex(es).pluginPath <==> exists i :: 0 <= i < |es| && Provides(es[i], n)
    ensures forall i :: FirstProvider(es, i, n) ==> BuildIndex(es).pluginPath[n] == FileOf(es[i])
  {
    if |es| > 0 {
      var init := es[..|es| - 1];
      PluginPathSpec(init, n);
      assert forall i :: 0 <= i < |init| ==> init[i] == es[i];
      if n in BuildIndex(init).pluginPath {
        var i :| 0 <= i < |init| && Provides(init[i], n);
        assert Provides(es[i], n);
        forall i | FirstProvider(es, i, n)
          ensures BuildIndex(es).pluginPath[n] == FileOf(es[i])
        {
          var j :| 0 <= j < |init| && Provides(init[j], n);
          assert i <= j;
          assert FirstProvider(init, i, n);
        }
      }
    }
  }

  /** An indexable plugin offers exactly the element names of its factories. */
  lemma OfferedNames(e: Entry, x: string)
    requires Indexable(e)
    ensures x in ElementNames(e.value.features) <==> Offers(e, x)
  {
    if x in ElementNames(e.value.features) {
      var f :| f in e.value.features && f.ElementFactory? && f.name == x;
    }
  }

  /** An element name is a key exactly when some indexable entry offers it,
      and it maps to the name of the first such entry. */
  lemma {:induction false} ElementMapSpec(es: seq<Entry>, x: string)
    ensures x in BuildIndex(es).nameOfPlugin <==> exists i :: 0 <= i < |es| && Offers(es[i], x)
    ensures forall i :: FirstOffer(es, i, x) ==> BuildIndex(es).nameOfPlugin[x] == NameOf(es[i])
  {
    if |es| > 0 {
      var init := es[..|es| - 1];
      var last := es[|es| - 1];
      var before := BuildIndex(init);
      assert BuildIndex(es) == IndexPlugin(before, last);
      ElementMapSpec(init, x);
      assert forall i :: 0 <= i < |init| ==> init[i] == es[i];
      if x in before.nameOfPlugin {
        var i :| 0 <= i < |init| && Offers(init[i], x);
        assert Offers(es[i], x);
        forall i | FirstOffer(es, i, x)
          ensures BuildIndex(es).nameOfPlugin[x] == NameOf(es[i])
        {
          var j :| 0 <= j < |init| && Offers(init[j], x);
          assert i <= j;
          assert FirstOffer(init, i, x);
        }
      } else {
        if Indexable(last) {
          OfferedNames(last, x);
        }
        assert x in BuildIndex(es).nameOfPlugin <==> Offers(es[|es| - 1], x);
      }
    }
  }

  /** Indexing more plugins never removes or changes an entry: the first
      plugin, and the first element, seen under a name keeps it. */
  lemma {:induction false} BuildExtends(es: seq<Entry>, more: seq<Entry>)
    ensures Extends(BuildIndex(es).pluginPath, BuildIndex(es + more).pluginPath)
    ensures Extends(BuildIndex(es).nameOfPlugin, BuildIndex(es + more).nameOfPlugin)
  {
    if |more| > 0 {
      var all := es + more;
      assert all[..|all| - 1] == es + more[..|more| - 1];
      BuildExtends(es, more[..|more| - 1]);
    } else {
      assert es + more == es;
    }
  }

  /** A null plugin, or one without a name or a file name, adds nothing to
      either map, whether or not it is reported. */
  lemma SkippedEntry(es: seq<Entry>, e: Entry)
    requires Classify(e) != Indexed
    ensures BuildIndex(es + [e]) == BuildIndex(es)
  {
  }

  /** A null feature or a feature of another kind is passed over and the
      scan goes on with the next one. */
  lemma NonFactorySkipped(m: Table, plugin: string, before: seq<Feature>, f: Feature, after: seq<Feature>)
    requires !f.ElementFactory?
    ensures AddFeatures(m, plugin, before + [f] + after) == AddFeatures(m, plugin, before + after)
  {
    assert ElementNames(before + [f] + after) == ElementNames(before + after);
  }

  /** Every file in `plugin_path` is the file of a plugin of the list
      carrying the name it is stored under. */
  lemma {:induction false} PathsFromRegistry(es: seq<Entry>, n: string)
    requires n in BuildIndex(es).pluginPath
    ensures exists i :: 0 <= i < |es| && Provides(es[i], n) && BuildIndex(es).pluginPath[n] == FileOf(es[i])
  {
    var init := es[..|es| - 1];
    if n in BuildIndex(init).pluginPath {
      PathsFromRegistry(init, n);
      var i :| 0 <= i < |init| && Provides(init[i], n) && BuildIndex(init).pluginPath[n] == FileOf(init[i]);
      assert es[i] == init[i];
    } else {
      assert Provides(es[|es| - 1], n);
    }
  }
}
