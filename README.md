# GhidraMetrics metric engine, modelled in Dafny

This project models the metric engine of GhidraMetrics, a Ghidra extension that
computes software metrics over disassembled programs:

- the **metric value store** every metric owns: a `TreeMap` from metric key to
  metric value, plus the `initialized` flag of the lazy `_init`;
- **McCabe cyclomatic complexity**: `m = e - n + 2p` clamped at zero, `init`,
  which copies the parsed counts and stores a value for every key, and the
  function-scoped metric named `McCabe.<function>`;
- the **plain-text exporter**: `--- BEGIN METRIC` / `name: …` / `key: value` /
  `--- END METRIC` blocks;
- the **exporter and its builder**: the extension check, the last-call-wins
  choice between a chosen path and the file chooser, and `export`, which
  rejects, then deletes, creates and appends line by line to an in-memory file;
- **metric-name resolution** in the factory: display name → lookup name →
  manager class, and the inverse table;
- the **similarity manager**: the selected files and the `compute` dispatch;
- the **script argument map** of the headless script base class.

Modules, one per GhidraMetrics component: `MetricStore`, `McCabe` (with the
client scenarios in `McCabeScenarios`), `ExporterTxt`, `Exporter`, `Factory`,
`Similarity`, `Script`. Three more modules stand in for Java and JDK
facilities rather than GhidraMetrics code: `Wrappers` (Option and Result, for
null and exceptions), `TextLines` (joining lines and `Pattern.splitAsStream` on
the line separator) and `FileStore` (`java.nio.file` paths and an in-memory
file system).

State that GhidraMetrics updates in place is a class: `MetricStore.Metric`
(name, flag, store), `McCabe.McCabeMetric` (the counts, composed with a
`Metric`, since Dafny here has no inheritance), `McCabe.McCabeManager`,
`Exporter.Exporter`, `Exporter.Builder`, `FileStore.FileSystem`,
`Similarity.SimilarityManager` and `Script.ScriptArgs`. The `TreeMap` is kept
as its ascending sequence of entries, which is what it iterates over. The
`StringBuilder` loops of the text exporter are methods proved equal to
functions that give the text line by line; the lemmas about the text are
stated over those functions.

Collaborators that are not part of this model enter as parameters: the parse
outcome of the control-flow-graph parser, `StringUtils.quotate`, the JSON
serialiser, the outcome of `GMSimilarity.createMeasures`, the parsed script
arguments, and the temporary file the chooser branch of `build` produces.

Behaviour of the code worth noting:

- `init` does not clear the store before filling it; it overwrites the four
  McCabe keys and keeps any other entry.
- `functionChanged` calls `init`, not `_init`, on the new function-scoped
  metric, so that metric's `initialized` flag stays false after a successful
  init (`McCabe.McCabeMetric.FunctionChanged`).
- `export` does not write the serialised text as a whole. It splits the text
  with `Pattern.splitAsStream`, which drops trailing empty pieces, and appends
  each piece plus a separator. A text export of one or more metrics therefore
  holds the serialised text without its last separator, and an export of no
  metrics holds a single separator (`Exporter.TxtExportContent`).
- A failed `init` leaves the store as it was, rather than emptying it.

## Model

| member | source | states |
|---|---|---|
| `MetricStore.KeyLessStrictTotalOrder` | src/main/java/it/unive/ghidra/metrics/base/GMAbstractMetric.java:25 | The key order of the TreeMap is irreflexive, transitive and total on distinct keys. |
| `MetricStore.AscendingKeysUnique` | src/main/java/it/unive/ghidra/metrics/base/GMAbstractMetric.java:25 | A store kept in ascending key order never holds two entries for one key. |
| `MetricStore.Lookup` | src/main/java/it/unive/ghidra/metrics/base/GMAbstractMetric.java:62 | `get` returns a stored entry with the requested key, or nothing when no entry has that key. |
| `MetricStore.Put` | src/main/java/it/unive/ghidra/metrics/base/GMAbstractMetric.java:96 | `put` grows the store by at most one entry (it inserts or overwrites); with `PutLookup` and `PutAscending`, the key holds the new entry, every other key is unchanged, and the order is kept. |
| `MetricStore.PutAscending` | src/main/java/it/unive/ghidra/metrics/base/GMAbstractMetric.java:94-97 | `put` keeps the store in ascending key order. |
| `MetricStore.PutLookup` | src/main/java/it/unive/ghidra/metrics/base/GMAbstractMetric.java:94-97 | After `put(v)`, `v`'s key holds `v` (overwriting) and every other key holds what it held before. |
| `MetricStore.PutAllLookup` | src/main/java/it/unive/ghidra/metrics/base/GMAbstractMetric.java:94-97 | After a sequence of puts, each key holds the last value put under it, or else its earlier entry. |
| `MetricStore.PutGreatest` | src/main/java/it/unive/ghidra/metrics/base/GMAbstractMetric.java:96 | Putting a key greater than every stored key appends its entry at the end. |
| `MetricStore.PutContains` | src/main/java/it/unive/ghidra/metrics/base/GMAbstractMetric.java:96 | The entry `put` stores is in the store afterwards. |
| `MetricStore.PutAllSorted` | src/main/java/it/unive/ghidra/metrics/base/GMAbstractMetric.java:94-97 | Putting values that already come in ascending key order into an empty store leaves exactly those values, in that order. |
| `MetricStore.LookupStored` | src/main/java/it/unive/ghidra/metrics/base/GMAbstractMetric.java:59-68 | In an ascending store, a value is among the values iterated exactly when `get` of its key returns it. |
| `MetricStore.Metric.constructor` | src/main/java/it/unive/ghidra/metrics/base/GMAbstractMetric.java:24-36 | A new metric has the given name, an empty store and is not initialized. |
| `MetricStore.Metric.GetName` | src/main/java/it/unive/ghidra/metrics/base/GMAbstractMetric.java:50-52 | `getName` returns the name fixed at construction. |
| `MetricStore.Metric.GetMetricValue` | src/main/java/it/unive/ghidra/metrics/base/GMAbstractMetric.java:59-63 | A null key gives null; otherwise the result is the stored entry for that key, or null when none is stored. |
| `MetricStore.Metric.GetMetrics` | src/main/java/it/unive/ghidra/metrics/base/GMAbstractMetric.java:66-68 | The values come in ascending key order, each is what `getMetricValue` returns for its key, and every stored entry is among them. |
| `MetricStore.Metric.ClearMetrics` | src/main/java/it/unive/ghidra/metrics/base/GMAbstractMetric.java:70-72 | Afterwards the store is empty; the flag is unchanged. |
| `MetricStore.Metric.CreateMetricValue` | src/main/java/it/unive/ghidra/metrics/base/GMAbstractMetric.java:89-97 | Afterwards `getMetricValue(k)` is `(k, v)`, every other key's entry is unchanged, and the store stays ordered. |
| `McCabe.Complexity` | src/main/java/it/unive/ghidra/metrics/impl/mccabe/GMMcCabe.java:103-109 | The complexity is never negative, is at least `e - n + 2p`, and is either 0 or exactly `e - n + 2p`, so it is `max(0, e - n + 2p)`. |
| `McCabe.ComplexityExamples` | src/main/java/it/unive/ghidra/metrics/impl/mccabe/GMMcCabe.java:103-109 | (e, n, p) = (0, 1, 1) gives 1, (4, 4, 1) gives 2, (6, 5, 1) gives 3, and (0, 5, 1) clamps to 0. |
| `McCabe.Accessor` | src/main/java/it/unive/ghidra/metrics/impl/mccabe/GMMcCabe.java:86-109 | The explicit key-to-getter table has a getter for exactly the keys of `ALL_KEYS`. |
| `McCabe.InitFillsEveryKey` | src/main/java/it/unive/ghidra/metrics/impl/mccabe/GMMcCabe.java:61-63 | After the `forEach` over `ALL_KEYS`, every key of `ALL_KEYS` holds its getter's value and every other key keeps its earlier entry. |
| `McCabe.InitFreshStore` | src/main/java/it/unive/ghidra/metrics/impl/mccabe/GMMcCabe.java:61-63 | On an empty store, a successful `init` leaves exactly four entries: the edge, node and exit counts and the clamped complexity, in `ALL_KEYS` order. |
| `McCabe.InitEntriesAllKeys` | src/main/java/it/unive/ghidra/metrics/impl/mccabe/GMMcCabe.java:61-63 | The `forEach` over `ALL_KEYS` creates one value per key, in `ALL_KEYS` order: the edge, node and exit counts, then the clamped complexity. |
| `McCabe.FunctionMetricNameInjective` | src/main/java/it/unive/ghidra/metrics/impl/mccabe/GMMcCabe.java:25-27 | Two function-scoped metrics of one kind have the same name only when their functions have the same name. |
| `McCabe.McCabeManager.constructor` | src/main/java/it/unive/ghidra/metrics/impl/mccabe/GMMcCabe.java:82-83 | The manager's function-metric slot (`setMetricFn`/`getMetricFn`) starts empty, and nothing has been handed to `printException`; `FunctionChanged` fills the slot. |
| `McCabe.InitReports` | src/main/java/it/unive/ghidra/metrics/impl/mccabe/GMMcCabe.java:67-69 | One `init` hands `printException` one `CancelledException` report exactly when the parse is cancelled, and nothing otherwise. |
| `McCabe.McCabeMetric.constructor` | src/main/java/it/unive/ghidra/metrics/impl/mccabe/GMMcCabe.java:15-49 | A new McCabe metric is named `McCabe`, is bound to the given function (if any), has null counts, an empty store and is not initialized. |
| `McCabe.McCabeMetric.GetName` | src/main/java/it/unive/ghidra/metrics/impl/mccabe/GMMcCabe.java:25-27 | The name is `McCabe`, followed for a function-scoped metric by a dot and the function's name. |
| `McCabe.McCabeMetric.GetNumEdges` | src/main/java/it/unive/ghidra/metrics/impl/mccabe/GMMcCabe.java:86-88 | Null exactly while the edge count is unset, otherwise that count; `init` sets it from an ok parse. |
| `McCabe.McCabeMetric.GetNumNodes` | src/main/java/it/unive/ghidra/metrics/impl/mccabe/GMMcCabe.java:90-92 | Null exactly while the node count is unset, otherwise that count; `init` sets it from an ok parse. |
| `McCabe.McCabeMetric.GetNumConnectedComponents` | src/main/java/it/unive/ghidra/metrics/impl/mccabe/GMMcCabe.java:94-96 | Null exactly while the exit count is unset, otherwise that count; `init` sets it from an ok parse. |
| `McCabe.McCabeMetric.GetComplexity` | src/main/java/it/unive/ghidra/metrics/impl/mccabe/GMMcCabe.java:103-109 | Over set counts, `getComplexity` is non-negative and equals the clamped formula. |
| `McCabe.McCabeMetric.CreateAllKeys` | src/main/java/it/unive/ghidra/metrics/impl/mccabe/GMMcCabe.java:61-63 | The loop puts one value per key of `ALL_KEYS`, in order, into the store. |
| `McCabe.McCabeMetric.Init` | src/main/java/it/unive/ghidra/metrics/impl/mccabe/GMMcCabe.java:52-73 | It returns true exactly for a parse that is ok; then the getters return the parsed counts and every key holds its getter's value. Otherwise (not ok, or cancelled) the counts and the store are unchanged. A cancelled parse is reported to the manager's `printException`, and only then. The flag and the manager's function-metric slot are untouched. |
| `McCabe.McCabeMetric.LazyInit` | src/main/java/it/unive/ghidra/metrics/base/GMAbstractMetric.java:40-47 | Once initialized, `_init` returns true and changes nothing (no further `init` call). Otherwise it runs `init` once, with its report on cancellation, and sets the flag to its outcome, so a failure is retried on the next call. |
| `McCabe.McCabeMetric.FunctionChanged` | src/main/java/it/unive/ghidra/metrics/impl/mccabe/GMMcCabe.java:81-84 | The manager gets a fresh metric bound to the function, on which `init` ran once (its flag stays false), with that `init`'s report on cancellation. The receiving metric's own fields and store are untouched. |
| `McCabeScenarios.RetryAfterFailure` | src/main/java/it/unive/ghidra/metrics/base/GMAbstractMetric.java:40-47 | `_init` fails on a cancelled parse and reports it, succeeds on the next call, then returns true without a third `init`, so a second cancellation goes unreported; exactly one report is made, and the complexity of (6, 5, 1) is 3. |
| `McCabeScenarios.SelectFunction` | src/main/java/it/unive/ghidra/metrics/impl/mccabe/GMMcCabe.java:81-84 | Selecting `myFunc` with 5 nodes, 6 edges and 1 exit yields the metric `McCabe.myFunc` with complexity 3, whose text block is the begin marker, `name: quotate("McCabe.myFunc")`, the four key lines with 6, 5, 1 and 3, and the end marker. |
| `McCabeScenarios.MyFuncMetric` | src/main/java/it/unive/ghidra/metrics/impl/mccabe/GMMcCabe.java:81-84 | The metric installed for `myFunc` with (6, 5, 1) is named `McCabe.myFunc`, holds complexity 3, and has the seven-line text block. |
| `McCabeScenarios.ComplexityAfterFirstInit` | src/main/java/it/unive/ghidra/metrics/impl/mccabe/GMMcCabe.java:56-63 | After a successful first init, the complexity key holds the clamped formula over the parsed counts. |
| `McCabeScenarios.NameOfFunctionMetric` | src/main/java/it/unive/ghidra/metrics/impl/mccabe/GMMcCabe.java:25-27 | A metric bound to function `f` is named `McCabe.` followed by `f`. |
| `McCabeScenarios.FunctionMetricBlock` | src/main/java/it/unive/ghidra/metrics/export/impl/GMExporterTXT.java:39-50 | After a first successful `init`, a function metric's text block is the begin marker, the `name` line with `McCabe.<function>`, one line per McCabe key in key order with the parsed counts and complexity, and the end marker. |
| `McCabeScenarios.McCabeBlock` | src/main/java/it/unive/ghidra/metrics/export/impl/GMExporterTXT.java:39-50 | A view holding what a first `init` stores prints as the markers around its name line and the four McCabe key lines, in key order. |
| `TextLines.SplitLinesJoin` | src/main/java/it/unive/ghidra/metrics/export/GMExporter.java:84 | Splitting joined single-line pieces with `splitAsStream` gives the pieces back without their trailing empty ones. |
| `TextLines.SplitLines` | src/main/java/it/unive/ghidra/metrics/export/GMExporter.java:84 | No piece holds a separator, a non-empty text never yields an empty last piece, and the empty text gives one empty line; `SplitLinesPieces` pins the pieces themselves. |
| `TextLines.SplitOnUnsplit` | src/main/java/it/unive/ghidra/metrics/export/GMExporter.java:84 | Re-joining the pieces between separators, with a separator between consecutive ones, gives back any text. |
| `TextLines.UnsplitSplitOn` | src/main/java/it/unive/ghidra/metrics/export/GMExporter.java:84 | Conversely, any non-empty sequence of separator-free pieces is exactly what splitting their re-joined text gives, so the pieces of a text are unique. |
| `TextLines.SplitLinesPieces` | src/main/java/it/unive/ghidra/metrics/export/GMExporter.java:84 | For a non-empty text, `splitAsStream` gives the pieces between separators up to the last non-empty one; the dropped pieces are all empty, and re-joining the result with them gives the text back. |
| `TextLines.SplitLinesEmpty` | src/main/java/it/unive/ghidra/metrics/export/GMExporter.java:84-87 | The empty text splits into one empty line, which is written as a single separator. |
| `ExporterTxt.FormatLineIsNoMarker` | src/main/java/it/unive/ghidra/metrics/export/impl/GMExporterTXT.java:12-14 | A `key: value` line is never a begin or end marker. |
| `ExporterTxt.ValueLines` | src/main/java/it/unive/ghidra/metrics/export/impl/GMExporterTXT.java:45-47 | One `key: quotate(value)` line per stored value, in store order. |
| `ExporterTxt.Format` | src/main/java/it/unive/ghidra/metrics/export/impl/GMExporterTXT.java:52-54 | The entry is the key, `": "`, the quoted value and the line separator, in that order; a single-line entry splits back into exactly that one line. |
| `ExporterTxt.BlockShape` | src/main/java/it/unive/ghidra/metrics/export/impl/GMExporterTXT.java:39-50 | A block is the begin marker, then the `name` line, then one line per stored value in store order, then the end marker. |
| `ExporterTxt.BlockMarkers` | src/main/java/it/unive/ghidra/metrics/export/impl/GMExporterTXT.java:39-50 | A block holds exactly one begin marker and one end marker. |
| `ExporterTxt.MarkerCounts` | src/main/java/it/unive/ghidra/metrics/export/impl/GMExporterTXT.java:21-30 | The text holds exactly as many begin markers and as many end markers as metrics. |
| `ExporterTxt.SerializeDistributes` | src/main/java/it/unive/ghidra/metrics/export/impl/GMExporterTXT.java:21-30 | `serialize(a ++ b) == serialize(a) + serialize(b)` and `serialize([]) == ""`. |
| `ExporterTxt.EmptyStoreBlock` | src/main/java/it/unive/ghidra/metrics/export/impl/GMExporterTXT.java:39-54 | A metric with an empty store serialises to the begin marker, `name: quotate(name)` and the end marker, each followed by a separator. |
| `ExporterTxt.TextSplitsIntoBlocks` | src/main/java/it/unive/ghidra/metrics/export/impl/GMExporterTXT.java:21-30 | Split back into lines, the text of one or more single-line metrics gives all its lines but the last empty one, with one begin and one end marker per metric. |
| `ExporterTxt.SerializeMetric` | src/main/java/it/unive/ghidra/metrics/export/impl/GMExporterTXT.java:39-54 | The `StringBuilder` loop builds exactly the block's lines, each followed by a separator. |
| `ExporterTxt.Serialize` | src/main/java/it/unive/ghidra/metrics/export/impl/GMExporterTXT.java:21-30 | The `StringBuilder` loop builds every block in input order, each followed by one more separator. |
| `FileStore.Parent` | src/main/java/it/unive/ghidra/metrics/export/GMExporter.java:80 | `getParent` is null exactly for a relative path made of a file name only. |
| `FileStore.Ancestors` | src/main/java/it/unive/ghidra/metrics/export/GMExporter.java:80 | The directories `createDirectories` creates include the directory itself. |
| `FileStore.FileSystem.DeleteIfExists` | src/main/java/it/unive/ghidra/metrics/export/GMExporter.java:79 | The path no longer names a file; all other files and directories are unchanged. |
| `FileStore.FileSystem.CreateDirectories` | src/main/java/it/unive/ghidra/metrics/export/GMExporter.java:80 | A null directory raises an error and changes nothing; otherwise the directory and its ancestors exist. |
| `FileStore.FileSystem.CreateFile` | src/main/java/it/unive/ghidra/metrics/export/GMExporter.java:81 | An existing file raises an error; otherwise a new empty file exists. |
| `FileStore.FileSystem.AppendLine` | src/main/java/it/unive/ghidra/metrics/export/GMExporter.java:93-101 | Appends the line to an existing file; on a missing file the error is swallowed and nothing changes. |
| `Exporter.ExportType.Extension` | src/main/java/it/unive/ghidra/metrics/export/GMExporter.java:24-38 | Lower-case letters, no dot; the values `json` and `txt` are its definition. |
| `Exporter.ExportType.ContentType` | src/main/java/it/unive/ghidra/metrics/export/GMExporter.java:25-26 | The media type is `text/plain` exactly for TXT. |
| `Exporter.NameExtension` | src/main/java/it/unive/ghidra/metrics/export/GMExporter.java:171-174 | The extension is a dot-free suffix of the file name, immediately preceded by a dot whenever the name has one; a name without a dot, or ending in a dot, has the empty extension. |
| `Exporter.NameExtensionOfSuffix` | src/main/java/it/unive/ghidra/metrics/export/GMExporter.java:171-174 | A name ending in a dot and a dot-free extension has that extension, whatever precedes the dot. |
| `Exporter.FileExtension` | src/main/java/it/unive/ghidra/metrics/export/GMExporter.java:172 | The extension of the path's file name: a dot-free suffix of it, empty when the name has no dot. |
| `Exporter.EqualsIgnoreCase` | src/main/java/it/unive/ghidra/metrics/export/GMExporter.java:173 | Two strings are equal ignoring case exactly when their ASCII lower-casings are equal. |
| `Exporter.AcceptIffLowerExtension` | src/main/java/it/unive/ghidra/metrics/export/GMExporter.java:171-174 | `accept(path, t)` holds exactly when the path's extension, lower-cased, is `t`'s extension; no path is accepted for both types. |
| `Exporter.AcceptDotExtension` | src/main/java/it/unive/ghidra/metrics/export/GMExporter.java:171-174 | A file `<name>.<ext>` is accepted for the type whose extension is `ext` in any letter case. |
| `Exporter.Accept` | src/main/java/it/unive/ghidra/metrics/export/GMExporter.java:171-174 | An accepted path's file name ends in a dot followed by as many characters as the type's extension, so a name without a dot, or ending in a dot, is never accepted. |
| `Exporter.Exporter.constructor` | src/main/java/it/unive/ghidra/metrics/export/GMExporter.java:64-70 | A new exporter has the given type, no metrics and no path. |
| `Exporter.CreateExporter` | src/main/java/it/unive/ghidra/metrics/export/GMExporter.java:53-62 | `createExporter(t).getExportType() == t`. |
| `Exporter.Exporter.SerializedText` | src/main/java/it/unive/ghidra/metrics/export/GMExporter.java:72-83 | `serialize(metrics)` of the exporter's type: the JSON serialiser for JSON; for TXT a text that is empty exactly when there are no metrics (its shape is stated by the `ExporterTxt` lemmas). |
| `Exporter.Exporter.Export` | src/main/java/it/unive/ghidra/metrics/export/GMExporter.java:74-91 | A null path or an extension mismatch raises an error before any delete, create or write. Otherwise the old file is deleted and the call fails when the path has no parent; else the file holds each line of `serialize(metrics)` followed by a separator, and the call returns the path it was built with. |
| `Exporter.Exporter.Rewrite` | src/main/java/it/unive/ghidra/metrics/export/GMExporter.java:79-88 | Delete, create the directories (failing on a null parent) and the file, then write the lines; previous content is discarded. |
| `Exporter.Exporter.WriteLines` | src/main/java/it/unive/ghidra/metrics/export/GMExporter.java:86-88 | The file ends up with each line followed by a separator appended in order. |
| `Exporter.TxtExportContent` | src/main/java/it/unive/ghidra/metrics/export/GMExporter.java:83-88 | A text export of single-line metrics leaves the serialised text without its last separator (one separator for no metrics); split again, it holds one begin and one end marker per metric. |
| `Exporter.Builder.constructor` | src/main/java/it/unive/ghidra/metrics/export/GMExporter.java:116-120 | A new builder has the type, no metrics, no path and no chooser. |
| `Exporter.Builder.AddMetric` | src/main/java/it/unive/ghidra/metrics/export/GMExporter.java:122-125 | The metric is appended; the path choice is unchanged. |
| `Exporter.Builder.AddMetrics` | src/main/java/it/unive/ghidra/metrics/export/GMExporter.java:127-130 | The metrics are appended in order; the path choice is unchanged. |
| `Exporter.Builder.WithFileChooser` | src/main/java/it/unive/ghidra/metrics/export/GMExporter.java:132-137 | Sets the chooser flag and drops any chosen path. |
| `Exporter.Builder.ToPath` | src/main/java/it/unive/ghidra/metrics/export/GMExporter.java:139-143 | Sets the path and clears the chooser flag, so the last of the two calls wins. |
| `Exporter.Builder.Build` | src/main/java/it/unive/ghidra/metrics/export/GMExporter.java:153-168 | Without the chooser, a fresh exporter of the builder's type with exactly its metrics and chosen path; with it, the chooser's path or its error. |
| `Factory.Invert` | src/main/java/it/unive/ghidra/metrics/GhidraMetricsFactory.java:40-41 | The collect succeeds exactly on an injective table; the result maps each value back to its key. |
| `Factory.LookupManagerByMetricName` | src/main/java/it/unive/ghidra/metrics/GhidraMetricsFactory.java:91-100 | A name resolves exactly when it is in one of the two tables; a lookup name resolves to its own manager, a display name to the manager of its lookup name; the recursion is at most one step deep. |
| `Factory.AllMetricNames` | src/main/java/it/unive/ghidra/metrics/GhidraMetricsFactory.java:53-55 | Every name it lists resolves to a manager. |
| `Factory.AllMetricManagers` | src/main/java/it/unive/ghidra/metrics/GhidraMetricsFactory.java:44-46 | Exactly the three tabled manager classes (Halstead, NCD, McCabe); `GMSimilarityManager` is not among them. |
| `Factory.MetricLookupNameByManager` | src/main/java/it/unive/ghidra/metrics/GhidraMetricsFactory.java:48-50 | A lookup name is found exactly for a class in the managers table, and that name maps back to the class; a class outside the table (`GMSimilarityManager`) gives null. |
| `Factory.UntabledManager` | src/main/java/it/unive/ghidra/metrics/GhidraMetricsFactory.java:34-50 | `GMSimilarityManager`, a manager class in neither table, has no lookup name, no lookup name maps to it, and `allMetricManagers` omits it. |
| `Factory.NamesResolveToLookupNames` | src/main/java/it/unive/ghidra/metrics/GhidraMetricsFactory.java:28-37 | Every names-table value is a managers-table key, and no display name is a lookup name. |
| `Factory.DisplayNameResolves` | src/main/java/it/unive/ghidra/metrics/GhidraMetricsFactory.java:96-97 | A display name resolves to the manager of its lookup name. |
| `Factory.InverseRoundTrip` | src/main/java/it/unive/ghidra/metrics/GhidraMetricsFactory.java:40-50 | `metricLookupNameByManager(managersLookupTable[k]) == k` for every lookup name, and every class in the managers table has a lookup name that maps back to it. |
| `Factory.AllNamesAndManagers` | src/main/java/it/unive/ghidra/metrics/GhidraMetricsFactory.java:44-55 | The names are exactly `Halstead`, `NCD` and `McCabe`; a manager class is listed exactly when it has a lookup name. |
| `Factory.LookupIsCaseSensitive` | src/main/java/it/unive/ghidra/metrics/GhidraMetricsFactory.java:29-37 | `McCabe` and `mccabe` resolve; `MCCABE` and `Ncd` raise an error. |
| `Similarity.SimilarityManager.constructor` | src/main/java/it/unive/ghidra/metrics/impl/similarity/GMSimilarityManager.java:17-19 | A new manager has no selected files and an empty store. |
| `Similarity.SimilarityManager.GetSelectedFiles` | src/main/java/it/unive/ghidra/metrics/impl/similarity/GMSimilarityManager.java:28-30 | Returns the stored list (null when none was set). |
| `Similarity.SimilarityManager.SetSelectedFiles` | src/main/java/it/unive/ghidra/metrics/impl/similarity/GMSimilarityManager.java:28-34 | A following `getSelectedFiles` returns exactly the list set. |
| `Similarity.SimilarityManager.HasSelectedFiles` | src/main/java/it/unive/ghidra/metrics/impl/similarity/GMSimilarityManager.java:36-38 | True exactly when the list is non-null and holds a file. |
| `Similarity.SimilarityManager.ClearMeasures` | src/main/java/it/unive/ghidra/metrics/impl/similarity/GMSimilarityManager.java:48 | The measures are cleared. |
| `Similarity.SimilarityManager.CreateMeasures` | src/main/java/it/unive/ghidra/metrics/impl/similarity/GMSimilarityManager.java:43 | One measurement of the files: the store then holds the measured values, or a failure is raised. |
| `Similarity.SimilarityManager.StoreMeasures` | src/main/java/it/unive/ghidra/metrics/impl/similarity/GMSimilarityManager.java:43 | Putting the measured values one by one into the cleared store leaves exactly what a sequence of puts gives; the flag is unchanged. |
| `Similarity.SimilarityManager.Compute` | src/main/java/it/unive/ghidra/metrics/impl/similarity/GMSimilarityManager.java:40-54 | Without selected files, the measures are cleared and nothing is measured. With them, they are measured once; a failure is reported and not propagated. The selected files and the metric's initialized flag never change. |
| `Script.ScriptArgs.constructor` | src/main/java/it/unive/ghidra/metrics/script/GMBaseScript.java:11 | The argument map starts empty. |
| `Script.ScriptArgs.ParseArgs` | src/main/java/it/unive/ghidra/metrics/script/GMBaseScript.java:13-15 | Every parsed option is added, options already present are overwritten, and all other entries are kept. |
| `Script.ScriptArgs.HasArg` | src/main/java/it/unive/ghidra/metrics/script/GMBaseScript.java:22-24 | True exactly when the option is a key of the map. |
| `Script.ScriptArgs.GetArgValue` | src/main/java/it/unive/ghidra/metrics/script/GMBaseScript.java:27-29 | Null exactly when the option is absent, otherwise the stored argument's value. `hasArg` and `getArgValue` only read the map. |

## Left out

- `printException` is modelled by what it is handed: `McCabe.McCabeManager.reports` records the exception of a cancelled `init`, and `Similarity.SimilarityManager.Compute` returns its own report; printing the message and stack trace is output and is not modelled.
- User interface: the window managers, panels, tables, file choosers and their binary-file filter (`Files.probeContentType`) are presentation code.
- Plugin registration and the headless script's wiring of the factory to an exporter are host glue.
- Reflection: `create` and `createHeadless` construct managers reflectively; the reflective getter lookup is replaced by the explicit table `McCabe.Accessor`.
- The control-flow-graph parser, Halstead, NCD and zip compression, the JSON exporter, `NumberUtils` and `StringUtils` are not part of this model; the parse outcome, `quotate` and the JSON serialiser are parameters.
- `StringUtils.getFileExtension` is not part of this model; `Exporter.NameExtension` takes it to be the text after the last dot of the file name, or empty without a dot.
- `GMMcCabeKey` is not part of this model; its four keys are named after the getters `init` reaches (`numEdges`, `numNodes`, `numConnectedComponents`, `complexity`) and ranked in that order. The order of `GMiMetricKey` is taken to be rank, then name.
- `GMBaseMetric`, between `GMMcCabe` and the store, is not part of this model; it is taken to expose the same store as `GMAbstractMetric`.
- The names of the Halstead and NCD metrics are not part of this model; they are taken to be `Halstead`/`halstead` and `NCD`/`ncd`.
- `GMiMetric` only declares an interface (and an older `void init`).
- The line separator is fixed at `"\n"`; the two-character Windows separator is not modelled.
- `Exporter.EqualsIgnoreCase`: case folding covers ASCII letters only, not the whole of `String.equalsIgnoreCase`.
- `BigDecimal` counts are modelled as unbounded integers.
- McCabe.McCabeMetric.GetComplexity: requires the counts to be set; its behaviour on null counts depends on `NumberUtils`, which is not part of this model.
- Exporter.Builder.Build: the builder and the exporter hold snapshots of the metrics (name and values) instead of live references, and the exporter gets a copy of the builder's list rather than sharing it, so later changes to either are not visible through the other.
- Exporter.Builder.Build: the chooser branch (the dialog and `Files.createTempFile`) is represented by its resulting path or error.
- Exporter.Exporter.Export: input/output failures of the real file system (permissions, a file where a directory should be, an interrupted write) and UTF-8 encoding are not modelled; the in-memory file is a string.
- Similarity.SimilarityManager.CreateMeasures: `GMSimilarity` is not part of this model; a successful measurement is taken to replace the store with the measured values, and a failed one to leave the store unchanged. The window refresh after `compute` is presentation code.
- Aliasing is not modelled: `Metric.GetMetrics` returns a copy of the values, where `GMAbstractMetric.getMetrics` returns a live view of the TreeMap; `SetSelectedFiles` stores the list by value, where `GMSimilarityManager` keeps the caller's list; `GetArgValue` cannot tell an option stored with a null value from an absent one; and a new `Exporter` starts with an empty metrics list, where `GMExporter` starts with null.
- Script argument parsing (`GMScriptArgumentParser`) and the unchecked cast in `getArgValue` are not modelled; the parsed map is a parameter and values have one type.
