# gst-analyzer: name resolution, modelled in Dafny

`gst-analyzer` answers "which plugin file on disk provides element X (or
plugin Y)?" for a GStreamer installation. Its `main.cpp` scans the command
line for options, walks the registry's plugin list once to build two maps —
plugin name to file (`plugin_path`) and element name to plugin name
(`name_of_plugin`) — then looks every query name up in one of them, collects
the files in a `std::set<std::string>`, and prints the set on one line.

This project models that pipeline with the registry replaced by plain data:

| module | file | models |
|---|---|---|
| `Optional` | optional.dfy | nullable pointers as `Option` |
| `StringOrder` | string_order.dfy | `std::string`'s `operator<`, proved a strict total order |
| `SortedSet` | sorted_set.dfy | `std::set<std::string>` as a strictly ascending sequence; `insert`; a set has one iteration order |
| `Output` | output.dfy | the final output line, and reading it back |
| `Args` | args.dfy | the option loop: a direct definition (`Parse`) and the loop itself (`ParseFlags`) |
| `Registry` | registry.dfy | plugin records and the feature union `NullFeature \| ElementFactory(name) \| OtherFeature` |
| `StdMap` | std_map.dfy | `std::map::insert` (never overwrites) and `operator[]` (inserts an empty value for a missing key) |
| `Index` | index.dfy | `iterate_elements_in_plugin` and the plugin loop |
| `Resolution` | resolution.dfy | both resolution loops, carrying the index so that `operator[]`'s side effect is visible |
| `Tool` | tool.dfy | the whole run, `Execute`, and its end-to-end properties |
| `Scenarios` | scenarios.dfy | worked examples of the tool's output on a one-plugin registry |

The code inserts into both maps with `std::map::insert`, which leaves an
existing key alone, so the *first* plugin, and the first element, seen under a
name wins (`Index.PluginPathSpec`, `Index.ElementMapSpec`). The model also shows that
an element filed under a plugin name resolves to the file of the *first*
plugin with that name, which need not be the plugin the element came from
(`Tool.ElementResolvesToFirstProvider`).

## Model

| member | source | states |
|---|---|---|
| `Args.IsOption` | main.cpp:100 | `strncmp(arg, "--", 2) == 0` holds exactly when the argument's first two characters are both dashes, a shorter argument never being an option; `Args.OptionsThenNames` shows how the loop uses it |
| `Args.ParseFlags` | main.cpp:94-122 | the left-to-right option loop, with its early `break`, computes exactly the direct description `Parse`: the run of `--` arguments after the program name, the last mode flag among them, whether `--verbose` is among them, and the index after the run |
| `Args.OptionsThenNames` | main.cpp:98-122 | every leading `--` argument is consumed whether recognised or not; names start at the first argument without the prefix; a later `--` argument is a name |
| `Args.AllOptions` | main.cpp:98-122 | when every argument after the program name starts with `--`, all of them are options and there is no query name, so the resolution loops do not run |
| `Args.ModeOfOptions` | main.cpp:102-115 | among the options the last `--elements`/`--plugins` decides the mode, element lookup being the default; `--verbose` anywhere among them enables diagnostics |
| `Args.Names` | main.cpp:145-147 | the query names are `argv[start_with..]`, element for element, and none when `start_with` is past the end |
| `Scenarios.LastModeFlagWins` | main.cpp:102-111 | `--elements --plugins X` resolves by plugin and `--plugins --elements X` by element, and either flag sets the never-read `compare_plugin_names` |
| `StdMap.Insert` | main.cpp:64 | `std::map::insert` adds a key that is absent and leaves an existing key's value untouched |
| `StdMap.Subscript` | main.cpp:154-161 | `operator[]` returns the key's value and, for a missing key, first inserts and returns an empty string; no other entry changes |
| `Index.Classify` | main.cpp:49-63 | a null plugin, or one lacking a name or a file name, is not indexed; the missing-information case is reported unless the plugin is named `staticelements` |
| `Index.AddFeatures` | main.cpp:70-88 | the feature loop keeps every existing element entry, adds exactly the element-factory names, and files each new one under the current plugin |
| `Index.IndexPlugin` | main.cpp:47-90 | a skipped plugin leaves both maps as they were; indexing one never removes or changes an entry |
| `Index.SkippedEntry` | main.cpp:49-63 | a null, nameless or file-less plugin adds nothing to either map, `staticelements` included |
| `Index.NonFactorySkipped` | main.cpp:72-87 | a null feature or a non-factory feature contributes nothing and the scan continues with the next feature |
| `Index.PluginPathSpec` | main.cpp:55-64 | a plugin name is a key of `plugin_path` exactly when some indexable plugin has it, and maps to the file of the first such plugin |
| `Index.ElementMapSpec` | main.cpp:64-88 | an element name is a key of `name_of_plugin` exactly when some indexable plugin has an element factory of that name, and maps to the name of the first such plugin |
| `Index.BuildIndex` | main.cpp:128-139 | after the plugin loop every plugin name stored as a value of `name_of_plugin` is a key of `plugin_path`; `Index.PluginPathSpec` and `Index.ElementMapSpec` give each map's contents, first seen wins |
| `Index.BuildConsistent` | main.cpp:64-81 | after indexing, every plugin name stored as a value of `name_of_plugin` is a key of `plugin_path` |
| `Index.BuildExtends` | main.cpp:128-138 | indexing further plugins never removes or changes an entry of either map: first seen wins |
| `Index.PathsFromRegistry` | main.cpp:55-64 | every file stored in `plugin_path` is the file of a plugin of the list that carries the name it is stored under |
| `Resolution.Step` | main.cpp:145-185 | one lookup keeps the result a duplicate-free ascending set, only adds to it, leaves `name_of_plugin` as it was and keeps every entry of `plugin_path` |
| `Resolution.Steps` | main.cpp:141-186 | over any sequence of query names the collected set stays ascending and duplicate-free, only grows, no entry of `plugin_path` is removed or changed, and if the set started with stored files only it ends with stored files only; `Resolution.StepsSpec` gives its exact contents |
| `Resolution.Resolve` | main.cpp:141-186 | starting from the empty `paths`, the result is ascending, duplicate-free and holds only files stored in `plugin_path`; `Resolution.ResolveSpec` says which |
| `Resolution.StepSpec` | main.cpp:147-162 | on a consistent index one lookup changes no map and adds exactly the file of the name when the selected map has it |
| `Resolution.StepsSpec` | main.cpp:141-186 | the resolution loop leaves a consistent index unchanged (no default empty path is inserted) and adds exactly the files of the names found |
| `Resolution.ResolveSpec` | main.cpp:141-186 | the result set is exactly the set of files of the query names present in the map the mode selects; unknown names contribute nothing |
| `Resolution.PluginModeKeepsIndex` | main.cpp:167-185 | plugin lookup never changes the index, whatever it holds, since every subscript is guarded by `count` |
| `Resolution.SameNamesSameResult` | main.cpp:141-186 | permuting or repeating the query names gives the same result |
| `Resolution.ResolveIdempotent` | main.cpp:141-186 | running the resolution loop again over the same names changes neither the set nor the index |
| `StringOrder.Less` | main.cpp:141 | `std::string`'s `operator<`, the order of `std::set<std::string>`, is exactly lexicographic order: some common prefix is followed by the end of the left string or a smaller character; `StringOrder.Irreflexive`, `StringOrder.Asymmetric`, `StringOrder.Transitive` and `StringOrder.Total` make it a strict total order |
| `SortedSet.Insert` | main.cpp:161 | `std::set::insert` keeps the set ascending and duplicate-free and adds exactly the one element, doing nothing when it is present |
| `SortedSet.SortedUnique` | main.cpp:189-190 | two ascending duplicate-free sequences with the same elements are equal: the printed order depends only on the set's contents |
| `Output.Words` | main.cpp:189-190 | printing each path followed by one space gives nothing exactly when there are no paths, otherwise a line ending in a space and at least one character per path; `Output.RenderDecode` reads it back |
| `Output.Render` | main.cpp:189-192 | the output is empty exactly when the set is; otherwise it ends in a newline preceded by every path followed by one space |
| `Output.RenderDecode` | main.cpp:189-192 | when no path contains a space, the output line reads back to exactly the paths, in order |
| `Tool.Execute` | main.cpp:92-195 | end to end, for every registry and argument list: the final output line is empty (and, without `--verbose`, nothing at all is printed) exactly when no query name is a key of the map the mode selects |
| `Tool.ExecuteListsFound` | main.cpp:92-195 | end to end: when no plugin file name contains a space, the printed line lists the files of exactly the query names found, ascending and each once |
| `Tool.ElementResolvesToFirstProvider` | main.cpp:154-161 | an element resolves to the file of the first plugin carrying the name of the first plugin that offers the element |
| `Tool.PluginResolvesToFirstProvider` | main.cpp:167-185 | a plugin name resolves to the file of the first plugin carrying it |
| `Tool.SamePluginOnePath` | main.cpp:141-163 | two elements of the same plugin yield one path, not two |
| `Scenarios.VideoConvertFound` | main.cpp:141-192 | with the `videoconvert` plugin installed, both `--elements videoconvert` and `--plugins videoconvert` print `/lib/gst/libvideoconvert.so` followed by a space and a newline |
| `Scenarios.UnknownElementSilent` | main.cpp:145-192 | with only the `videoconvert` plugin installed, `--elements` followed by any other name not starting with `--` (such as `nonexistentelem`) prints nothing, not even a newline |

## Left out

- Framework start-up: `gst_init` and `gst_registry_get` are foreign calls. `gst_init` may remove arguments it recognises from `argv` after `start_with` is computed; the model keeps `argv` unchanged.
- Memory management of foreign objects: the `GList` walks, `gst_plugin_feature_list_free` and `gst_object_unref` become iteration over plain sequences.
- The GObject type checks `GST_PLUGIN_FEATURE` and `GST_IS_ELEMENT_FACTORY` become the three-way `Feature` union.
- Features are fetched from the registry by plugin name; the model carries each plugin's features in its own record, so two records with the same name may carry different feature lists.
- Terminal output other than the final line: colour codes, the `print_*` helpers and the text of every verbose diagnostic. The only verbose-dependent step with a side effect, the extra `plugin_path[name]` in the verbose branches, subscripts the same key as the `insert` that follows it and so changes nothing further.
- `compare_plugin_names` is kept in `Args.Flags` but, as in the program, nothing reads it.
- Strings are sequences of characters ordered by code point; the program's C strings are byte strings compared as unsigned bytes, and cannot contain a NUL byte, which the model does not exclude.
- The exit status, which is always 0.
- Output.RenderDecode: reading the line back assumes no path contains a space, because the program's format cannot separate such a path from its neighbours.
- Tool.ExecuteListsFound: for the same reason, states the listed files only for registries whose file names contain no space; `Tool.Execute` and `Resolution.ResolveSpec` have no such condition.
