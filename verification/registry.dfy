/**
 The plugin registry as plain data: the list of plugins the framework
 enumerates, each with its name, its file and its features.
 */
module Registry {
  import opened Optional

  /** A feature of a plugin: a null list entry, an element factory (the only
      kind the tool indexes) or any other feature kind. */
  datatype Feature = NullFeature | ElementFactory(name: string) | OtherFeature

  /** A plugin as the registry describes it; a missing name or file name is
      a null string returned by the framework. */
  datatype Plugin = Plugin(name: Option<string>, filename: Option<string>, features: seq<Feature>)

  /** One entry of the plugin list; `None` is a null plugin pointer. */
  type Entry = Option<Plugin>

  /** The plugin is non-null and has both a name and a file name: the only
      entries the tool indexes. */
  predicate Indexable(e: Entry)
  {
    e.Some? && e.value.name.Some? && e.value.filename.Some?
  }

  function NameOf(e: Entry): string
    requires Indexable(e)
  {
    e.value.name.value
  }

  function FileOf(e: Entry): string
    requires Indexable(e)
  {
    e.value.filename.value
  }

  /** The entry is an indexable plugin called `n`. */
  predicate Provides(e: Entry, n: string)
  {
    Indexable(e) && NameOf(e) == n
  }

  /** The entry is an indexable plugin with an element factory called `x`. */
  predicate Offers(e: Entry, x: string)
  {
    Indexable(e) && ElementFactory(x) in e.value.features
  }
}
